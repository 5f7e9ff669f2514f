/**
 * How a selector picks containers: label keys are qualified with a prefix, and Go visits the keys of a map
 * in an order of its own choosing (internal/discovery/discovery.go).
 */
module Matching {
  import opened Wrappers
  import opened Discovery
  import S = State

  /** Label keys with the values allowed for each. */
  type Wanted = map<string, seq<string>>

  const DEFAULT_PREFIX := "com.kurtosistech.custom.ethereum-package."

  /** A key with a dot is complete; any other gets the prefix. */
  function Qualify(prefix: string, key: string): string {
    if '.' in key then key else prefix + key
  }

  /** `order` lists every one of the keys exactly once. */
  ghost predicate Enumerates(order: seq<string>, keys: set<string>) {
    (forall k :: k in order <==> k in keys) && forall i, j :: 0 <= i < j < |order| ==> order[i] != order[j]
  }

  ghost predicate Lists(order: seq<string>, m: Wanted) {
    forall k :: k in order ==> k in m
  }

  /** The qualified map that results from visiting the keys in this order: of keys that clash the last one wins. */
  ghost function Qualified(prefix: string, order: seq<string>, m: Wanted): Wanted
    requires Lists(order, m)
  {
    if order == [] then map[]
    else
      var init, last := order[..|order| - 1], order[|order| - 1];
      Qualified(prefix, init, m)[Qualify(prefix, last) := m[last]]
  }

  /** `out` results from visiting all the keys of m in some order. */
  ghost predicate Merges(prefix: string, m: Wanted, out: Wanted) {
    exists order :: Enumerates(order, m.Keys) && out == Qualified(prefix, order, m)
  }

  method QualifyMatch(prefix: string, m: Wanted) returns (out: Wanted)
    ensures Merges(prefix, m, out)
  {
    out := map[];
    ghost var order := [];
    var left := m.Keys;
    while left != {}
      invariant left <= m.Keys && Enumerates(order, m.Keys - left)
      invariant out == Qualified(prefix, order, m)
    {
      var k :| k in left;
      out := out[Qualify(prefix, k) := m[k]];
      assert (order + [k])[..|order|] == order;
      order := order + [k];
      left := left - {k};
    }
  }

  method ContainsString(values: seq<string>, target: string) returns (found: bool)
    ensures found <==> target in values
  {
    for i := 0 to |values|
      invariant target !in values[..i]
    {
      if values[i] == target {
        return true;
      }
    }
    found := false;
  }

  predicate LabelsMatch(want: Wanted, have: map<string, string>) {
    forall key :: key in want ==> key in have && have[key] in want[key]
  }

  method MatchLabels(want: Wanted, have: map<string, string>) returns (ok: bool)
    ensures ok <==> LabelsMatch(want, have)
  {
    var left := want.Keys;
    while left != {}
      invariant left <= want.Keys
      invariant forall key :: key in want && key !in left ==> key in have && have[key] in want[key]
    {
      var key :| key in left;
      if key !in have {
        return false;
      }
      var allowed := ContainsString(want[key], have[key]);
      if !allowed {
        return false;
      }
      left := left - {key};
    }
    ok := true;
  }

  // ---- Against what the schema documents ----

  /** As documented: the values of a key are alternatives, and every key has to match. */
  ghost predicate Documented(prefix: string, m: Wanted, have: map<string, string>) {
    forall k :: k in m ==> Qualify(prefix, k) in have && have[Qualify(prefix, k)] in m[k]
  }

  ghost predicate Matches(prefix: string, order: seq<string>, m: Wanted, have: map<string, string>)
    requires Lists(order, m)
  {
    LabelsMatch(Qualified(prefix, order, m), have)
  }

  ghost predicate Clash(prefix: string, a: string, b: string) {
    Qualify(prefix, a) == Qualify(prefix, b)
  }

  ghost predicate SameValues(xs: seq<string>, ys: seq<string>) {
    forall v :: v in xs <==> v in ys
  }

  /** Keys that qualify to the same label allow the same values. */
  ghost predicate KeysAgree(prefix: string, m: Wanted) {
    forall a, b :: a in m && b in m && Clash(prefix, a, b) ==> SameValues(m[a], m[b])
  }

  /** Some key, together with all that clash with it, allows nothing at all. */
  ghost predicate Unsatisfiable(prefix: string, m: Wanted) {
    exists k :: k in m && AllEmpty(prefix, m, k)
  }

  ghost predicate AllEmpty(prefix: string, m: Wanted, k: string) {
    forall b :: b in m && Clash(prefix, k, b) ==> m[b] == []
  }

  /** Every entry of the qualified map comes from a key that was visited, and every visited key has an entry. */
  lemma {:induction false} QualifiedFrom(prefix: string, order: seq<string>, m: Wanted, q: string)
    requires Lists(order, m)
    ensures q in Qualified(prefix, order, m) <==> exists k :: k in order && Qualify(prefix, k) == q
    ensures q in Qualified(prefix, order, m) ==>
              exists k :: k in order && Qualify(prefix, k) == q && Qualified(prefix, order, m)[q] == m[k]
  {
    if order == [] {
    } else {
      var init, last := order[..|order| - 1], order[|order| - 1];
      assert order == init + [last];
      QualifiedFrom(prefix, init, m, q);
      assert last in order;
    }
  }

  /** Keys visited later override those visited before. */
  lemma {:induction false} QualifiedConcat(prefix: string, xs: seq<string>, ys: seq<string>, m: Wanted)
    requires Lists(xs, m) && Lists(ys, m) && Lists(xs + ys, m)
    ensures Qualified(prefix, xs + ys, m) == Qualified(prefix, xs, m) + Qualified(prefix, ys, m)
    decreases |ys|
  {
    hide Qualify;
    if ys == [] {
      assert xs + ys == xs;
    } else {
      var init, last := ys[..|ys| - 1], ys[|ys| - 1];
      assert ys == init + [last];
      assert (xs + ys)[..|xs + ys| - 1] == xs + init;
      QualifiedConcat(prefix, xs, init, m);
      Override(Qualified(prefix, xs, m), Qualified(prefix, init, m), Qualify(prefix, last), m[last]);
    }
  }

  lemma Override(a: Wanted, b: Wanted, k: string, v: seq<string>)
    ensures (a + b)[k := v] == a + b[k := v]
  {
  }

  /** Where clashing keys agree, or nothing can match, the visiting order is irrelevant and the documentation right. */
  lemma AgreementSuffices(prefix: string, order: seq<string>, m: Wanted, have: map<string, string>)
    requires Enumerates(order, m.Keys) && (KeysAgree(prefix, m) || Unsatisfiable(prefix, m))
    ensures Matches(prefix, order, m, have) <==> Documented(prefix, m, have)
  {
    hide Qualify, Qualified;
    var merged := Qualified(prefix, order, m);
    if KeysAgree(prefix, m) {
      forall k | k in m
        ensures Qualify(prefix, k) in merged && SameValues(merged[Qualify(prefix, k)], m[k])
      {
        QualifiedFrom(prefix, order, m, Qualify(prefix, k));
        var b :| b in order && Clash(prefix, b, k) && merged[Qualify(prefix, k)] == m[b];
      }
      forall q | q in merged
        ensures exists k :: k in m && Qualify(prefix, k) == q
      {
        QualifiedFrom(prefix, order, m, q);
      }
    } else {
      var k :| k in m && AllEmpty(prefix, m, k);
      QualifiedFrom(prefix, order, m, Qualify(prefix, k));
      var b :| b in order && Clash(prefix, b, k) && merged[Qualify(prefix, k)] == m[b];
      assert Clash(prefix, k, k);
      assert m[k] == [] && m[b] == [];
    }
  }

  lemma {:induction false} ListKeys(keys: set<string>) returns (order: seq<string>)
    ensures Enumerates(order, keys)
    decreases |keys|
  {
    if keys == {} {
      order := [];
    } else {
      var k :| k in keys;
      var rest := ListKeys(keys - {k});
      order := rest + [k];
    }
  }

  lemma LastWins(prefix: string, before: seq<string>, last: string, m: Wanted)
    requires Lists(before + [last], m)
    ensures var q := Qualify(prefix, last);
            q in Qualified(prefix, before + [last], m) && Qualified(prefix, before + [last], m)[q] == m[last]
  {
  }

  ghost predicate AllowNothing(m: Wanted, keys: seq<string>) {
    forall k :: k in keys ==> k in m && m[k] == []
  }

  ghost predicate AllowSomething(m: Wanted, keys: seq<string>) {
    forall k :: k in keys ==> k in m && m[k] != []
  }

  /** An order that visits the keys without values first and `last` at the end. */
  lemma EmptyFirst(m: Wanted, last: string) returns (empties: seq<string>, others: seq<string>)
    requires last in m
    ensures Enumerates(empties + (others + [last]), m.Keys)
    ensures AllowNothing(m, empties) && AllowSomething(m, others)
  {
    var none := set k | k in m && k != last && m[k] == [];
    var some := set k | k in m && k != last && m[k] != [];
    empties := ListKeys(none);
    others := ListKeys(some);
    EnumeratesConcat(others, some, [last], {last});
    EnumeratesConcat(empties, none, others + [last], some + {last});
    assert none + (some + {last}) == m.Keys;
  }

  lemma EnumeratesConcat(xs: seq<string>, a: set<string>, ys: seq<string>, b: set<string>)
    requires Enumerates(xs, a) && Enumerates(ys, b) && a !! b
    ensures Enumerates(xs + ys, a + b)
  {
    assert forall k :: k in xs + ys <==> k in xs || k in ys;
    assert forall i :: 0 <= i < |xs| ==> xs[i] in a;
    assert forall i :: 0 <= i < |ys| ==> ys[i] in b;
  }

  /** Where clashing keys disagree, some visiting order selects a container that the documentation excludes. */
  lemma DisagreementShows(prefix: string, m: Wanted) returns (order: seq<string>, have: map<string, string>)
    requires !KeysAgree(prefix, m) && !Unsatisfiable(prefix, m)
    ensures Enumerates(order, m.Keys)
    ensures Matches(prefix, order, m, have) && !Documented(prefix, m, have)
  {
    hide Qualify, Qualified, Unsatisfiable;
    var a, b, v :| a in m && b in m && Clash(prefix, a, b) && v in m[a] && v !in m[b];
    var empties, others := EmptyFirst(m, a);
    var late := others + [a];
    order := empties + late;
    var merged := Qualified(prefix, order, m);
    QualifiedConcat(prefix, empties, late, m);
    forall q | q in merged
      ensures merged[q] != []
    {
      NeverEmpty(prefix, m, empties, late, q);
    }
    LastWins(prefix, others, a, m);
    have := map q | q in merged :: if q == Qualify(prefix, a) then v else merged[q][0];
    QualifiedFrom(prefix, order, m, Qualify(prefix, b));
  }

  /** Late keys have values; a label that only early keys set would make the selector unsatisfiable. */
  lemma NeverEmpty(prefix: string, m: Wanted, empties: seq<string>, late: seq<string>, q: string)
    requires Lists(empties + late, m) && !Unsatisfiable(prefix, m)
    requires AllowNothing(m, empties) && AllowSomething(m, late) && forall k :: k in m ==> k in empties + late
    requires q in Qualified(prefix, empties + late, m)
    ensures Qualified(prefix, empties + late, m)[q] != []
  {
    hide Qualify, Qualified, Unsatisfiable;
    assert Lists(empties, m) && Lists(late, m);
    QualifiedFrom(prefix, empties + late, m, q);
    var k :| k in empties + late && Qualify(prefix, k) == q;
    var b := Satisfier(prefix, m, k);
    assert b in late;
    QualifiedConcat(prefix, empties, late, m);
    QualifiedFrom(prefix, late, m, q);
  }

  lemma Satisfier(prefix: string, m: Wanted, k: string) returns (b: string)
    requires k in m && !Unsatisfiable(prefix, m)
    ensures b in m && Qualify(prefix, b) == Qualify(prefix, k) && m[b] != []
  {
    assert !AllEmpty(prefix, m, k);
    b :| b in m && Clash(prefix, k, b) && m[b] != [];
  }

  /**
   * "Multiple keys AND together" holds for every visiting order and every container exactly when keys that
   * qualify to the same label allow the same values, or nothing can match at all. Otherwise one of the clashing
   * keys is silently dropped.
   */
  lemma MatchingIff(prefix: string, m: Wanted)
    ensures (forall order, have :: Enumerates(order, m.Keys) ==>
               (Matches(prefix, order, m, have) <==> Documented(prefix, m, have)))
       <==> KeysAgree(prefix, m) || Unsatisfiable(prefix, m)
  {
    if KeysAgree(prefix, m) || Unsatisfiable(prefix, m) {
      forall order, have | Enumerates(order, m.Keys)
        ensures Matches(prefix, order, m, have) <==> Documented(prefix, m, have)
      {
        AgreementSuffices(prefix, order, m, have);
      }
    } else {
      var order, have := DisagreementShows(prefix, m);
    }
  }

  const SHORT_KEY := "client-type"
  const FULL_KEY := DEFAULT_PREFIX + SHORT_KEY

  /** A label in its short and its full spelling. */
  function TwoSpellings(short: seq<string>, full: seq<string>): Wanted {
    map[SHORT_KEY := short, FULL_KEY := full]
  }

  lemma SpellingsClash()
    ensures SHORT_KEY != FULL_KEY && Qualify(DEFAULT_PREFIX, SHORT_KEY) == Qualify(DEFAULT_PREFIX, FULL_KEY) == FULL_KEY
  {
    assert |FULL_KEY| == |DEFAULT_PREFIX| + |SHORT_KEY|;
    assert SHORT_KEY == ['c', 'l', 'i', 'e', 'n', 't', '-', 't', 'y', 'p', 'e'];
    assert FULL_KEY[3] == DEFAULT_PREFIX[3] == '.';
  }

  /** Visited last, either spelling decides alone. */
  lemma LastSpelling(short: seq<string>, full: seq<string>)
    ensures var m := TwoSpellings(short, full);
            && Enumerates([FULL_KEY, SHORT_KEY], m.Keys) && Enumerates([SHORT_KEY, FULL_KEY], m.Keys)
            && Qualified(DEFAULT_PREFIX, [FULL_KEY, SHORT_KEY], m) == map[FULL_KEY := short]
            && Qualified(DEFAULT_PREFIX, [SHORT_KEY, FULL_KEY], m) == map[FULL_KEY := full]
  {
    var m := TwoSpellings(short, full);
    SpellingsClash();
    hide Qualify, SHORT_KEY, FULL_KEY;
    LastOfTwo(DEFAULT_PREFIX, FULL_KEY, SHORT_KEY, m);
    LastOfTwo(DEFAULT_PREFIX, SHORT_KEY, FULL_KEY, m);
  }

  lemma LastOfTwo(prefix: string, a: string, b: string, m: Wanted)
    requires a in m && b in m && Qualify(prefix, a) == Qualify(prefix, b)
    ensures Qualified(prefix, [a, b], m) == map[Qualify(prefix, b) := m[b]]
  {
    assert [a, b][..1] == [a] && [a][..0] == [];
    assert Qualified(prefix, [], m) == map[];
    assert Qualified(prefix, [a], m) == map[Qualify(prefix, a) := m[a]];
  }

  /**
   * The documented conjunction fails on a label spelled twice: a beacon node is hit or missed as the visiting order has
   * it.
   */
  lemma SpellingDecides()
    ensures var m, beacon := TwoSpellings(["beacon"], ["execution"]), map[FULL_KEY := "beacon"];
            && Enumerates([FULL_KEY, SHORT_KEY], m.Keys) && Matches(DEFAULT_PREFIX, [FULL_KEY, SHORT_KEY], m, beacon)
            && Enumerates([SHORT_KEY, FULL_KEY], m.Keys) && !Matches(DEFAULT_PREFIX, [SHORT_KEY, FULL_KEY], m, beacon)
            && !Documented(DEFAULT_PREFIX, m, beacon)
  {
    LastSpelling(["beacon"], ["execution"]);
    SpellingsClash();
    assert "beacon"[0] == 'b' && "execution"[0] == 'e';
    hide Qualify, FULL_KEY, SHORT_KEY, Qualified, Enumerates;
    var m := TwoSpellings(["beacon"], ["execution"]);
    var late := Qualified(DEFAULT_PREFIX, [SHORT_KEY, FULL_KEY], m);
    assert FULL_KEY in late && late[FULL_KEY] == ["execution"] && "beacon" !in ["execution"];
  }

  // ---- Resolve ----

  datatype Config = Config(prefix: string, enclaveKey: string, enclaveId: string)

  /** One listed container: the labels in the listing, and what inspecting it answers. */
  datatype Listed = Listed(labels: map<string, string>, inspected: Option<Container>)

  function Want(sel: S.Selector): Wanted {
    map k | k in sel.labels :: if sel.labels[k].None? then [] else sel.labels[k].value
  }

  /** A possible outcome of matching a selector with labels, for some visiting order. */
  ghost predicate MayAnswer(prefix: string, sel: S.Selector, labels: map<string, string>, hit: bool) {
    if sel.all then hit
    else exists order :: Enumerates(order, Want(sel).Keys) && (hit <==> Matches(prefix, order, Want(sel), labels))
  }

  predicate InEnclave(cfg: Config, c: Container) {
    cfg.enclaveId == "" || (cfg.enclaveKey in c.labels && c.labels[cfg.enclaveKey] == cfg.enclaveId)
  }

  /** The containers of the enclave among those hit; None when inspecting one that was hit fails. */
  ghost function Selection(cfg: Config, listed: seq<Listed>, hits: seq<bool>): Listing
    requires |hits| == |listed|
  {
    if listed == [] then Some([])
    else
      var n := |listed| - 1;
      var init, last := Selection(cfg, listed[..n], hits[..n]), listed[n];
      if init.None? || (hits[n] && last.inspected.None?) then None
      else if hits[n] && InEnclave(cfg, last.inspected.value) then Some(init.value + [last.inspected.value])
      else init
  }

  /** One step of Resolve's loop: whether a listed container is hit. */
  method IsHit(prefix: string, sel: S.Selector, labels: map<string, string>) returns (hit: bool)
    ensures MayAnswer(prefix, sel, labels, hit)
  {
    if sel.all {
      return true;
    }
    var want := QualifyMatch(prefix, Want(sel));
    hit := MatchLabels(want, labels);
    ghost var order :| Enumerates(order, Want(sel).Keys) && want == Qualified(prefix, order, Want(sel));
    assert hit <==> Matches(prefix, order, Want(sel), labels);
  }

  /** After visiting the first |hits| listed containers, with these outcomes, the selection is `r`. */
  ghost predicate Visited(cfg: Config, sel: S.Selector, all: seq<Listed>, hits: seq<bool>, r: Listing) {
    && |hits| <= |all|
    && (forall i :: 0 <= i < |hits| ==> MayAnswer(cfg.prefix, sel, all[i].labels, hits[i]))
    && r == Selection(cfg, all[..|hits|], hits)
  }

  /** A possible outcome of resolving a selector: all of the listing was visited, or inspecting a hit failed. */
  ghost predicate MayResolve(cfg: Config, sel: S.Selector, listed: Option<seq<Listed>>, r: Listing) {
    if listed.None? then r.None?
    else exists hits :: Visited(cfg, sel, listed.value, hits, r) && (r.Some? ==> |hits| == |listed.value|)
  }

  method Resolve(cfg: Config, sel: S.Selector, listed: Option<seq<Listed>>) returns (r: Listing)
    ensures MayResolve(cfg, sel, listed, r)
  {
    if listed.None? {
      return None;
    }
    ghost var hits := [];
    NoneVisited(cfg, sel, listed.value);
    hide Visited, InEnclave, MayAnswer, Selection;
    var all := listed.value;
    var out: seq<Container> := [];
    for i := 0 to |all|
      invariant |hits| == i && Visited(cfg, sel, all, hits, Some(out))
    {
      var hit := IsHit(cfg.prefix, sel, all[i].labels);
      VisitedStep(cfg, sel, all, hits, out, hit);
      hits := hits + [hit];
      if !hit {
        continue;
      }
      if all[i].inspected.None? {
        return None;
      }
      if !InEnclave(cfg, all[i].inspected.value) {
        continue;
      }
      out := out + [all[i].inspected.value];
    }
    r := Some(out);
  }

  lemma NoneVisited(cfg: Config, sel: S.Selector, all: seq<Listed>)
    ensures Visited(cfg, sel, all, [], Some([]))
  {
  }

  lemma VisitedStep(cfg: Config, sel: S.Selector, all: seq<Listed>, hits: seq<bool>, out: seq<Container>, hit: bool)
    requires |hits| < |all| && Visited(cfg, sel, all, hits, Some(out))
    requires MayAnswer(cfg.prefix, sel, all[|hits|].labels, hit)
    ensures var one := all[|hits|];
            Visited(cfg, sel, all, hits + [hit],
                    if hit && one.inspected.None? then None
                    else if hit && InEnclave(cfg, one.inspected.value) then Some(out + [one.inspected.value])
                    else Some(out))
  {
    hide MayAnswer, InEnclave;
    var i := |hits|;
    assert all[..i + 1][..i] == all[..i] && (hits + [hit])[..i] == hits;
  }

  ghost predicate Picks(cfg: Config, one: Listed, hit: bool, c: Container) {
    hit && one.inspected == Some(c) && InEnclave(cfg, c)
  }

  lemma {:induction false} SelectionIff(cfg: Config, listed: seq<Listed>, hits: seq<bool>, c: Container)
    requires |hits| == |listed|
    ensures Selection(cfg, listed, hits).Some? <==> forall i :: 0 <= i < |hits| && hits[i] ==> listed[i].inspected.Some?
    ensures Selection(cfg, listed, hits).Some? ==>
              (c in Selection(cfg, listed, hits).value
               <==> exists i :: 0 <= i < |hits| && Picks(cfg, listed[i], hits[i], c))
  {
    if listed == [] {
    } else {
      var n := |listed| - 1;
      SelectionIff(cfg, listed[..n], hits[..n], c);
      assert forall i :: 0 <= i < n ==> listed[..n][i] == listed[i] && hits[..n][i] == hits[i];
      if i :| 0 <= i < |hits| && Picks(cfg, listed[i], hits[i], c) {
        assert i == n || Picks(cfg, listed[..n][i], hits[..n][i], c);
      }
      assert Picks(cfg, listed[n], hits[n], c) || !Picks(cfg, listed[n], hits[n], c);
    }
  }

  // ---- The promise of a selector ----

  /** As the schema has it: "all" picks everything, the empty selector nothing, any other what it documents. */
  ghost predicate Promised(prefix: string, sel: S.Selector, labels: map<string, string>) {
    sel.all || (sel.labels != map[] && Documented(prefix, Want(sel), labels))
  }

  /** What a selector has to be for the promise to hold: spelled consistently, and not empty. */
  ghost predicate WellSpelled(prefix: string, sel: S.Selector) {
    !S.EmptySelector(sel) && (sel.all || KeysAgree(prefix, Want(sel)) || Unsatisfiable(prefix, Want(sel)))
  }

  lemma {:induction false} HitAsPromised(prefix: string, sel: S.Selector, labels: map<string, string>, hit: bool)
    requires MayAnswer(prefix, sel, labels, hit) && WellSpelled(prefix, sel)
    ensures hit <==> Promised(prefix, sel, labels)
  {
    hide KeysAgree, Unsatisfiable, Documented, Want, Matches;
    if !sel.all {
      var order :| Enumerates(order, Want(sel).Keys) && (hit <==> Matches(prefix, order, Want(sel), labels));
      AgreementSuffices(prefix, order, Want(sel), labels);
    }
  }

  /** These are possible outcomes of matching the selector with every listed container. */
  ghost predicate MayHit(cfg: Config, sel: S.Selector, listed: seq<Listed>, hits: seq<bool>) {
    |hits| == |listed| && forall i :: 0 <= i < |hits| ==> MayAnswer(cfg.prefix, sel, listed[i].labels, hits[i])
  }

  /** If the selection succeeds, it has c exactly when the selector promises c. */
  ghost predicate Keeps(cfg: Config, sel: S.Selector, listed: seq<Listed>, hits: seq<bool>, c: Container)
    requires |hits| == |listed|
  {
    var r := Selection(cfg, listed, hits);
    r.Some? ==>
      (c in r.value <==> exists one :: one in listed && Picks(cfg, one, Promised(cfg.prefix, sel, one.labels), c))
  }

  /** A selector that is well spelled picks exactly the containers it promises, from every listing, in every order. */
  lemma {:induction false} ResolvesAsPromised(cfg: Config, sel: S.Selector, listed: seq<Listed>, hits: seq<bool>,
                                              c: Container)
    requires MayHit(cfg, sel, listed, hits) && WellSpelled(cfg.prefix, sel)
    ensures Keeps(cfg, sel, listed, hits, c)
  {
    hide WellSpelled, Promised, Selection, InEnclave, MayAnswer;
    SelectionIff(cfg, listed, hits, c);
    forall i | 0 <= i < |hits|
      ensures hits[i] <==> Promised(cfg.prefix, sel, listed[i].labels)
    {
      HitAsPromised(cfg.prefix, sel, listed[i].labels, hits[i]);
    }
    if i :| 0 <= i < |hits| && Picks(cfg, listed[i], hits[i], c) {
      assert listed[i] in listed;
    }
  }

  /** A container of the enclave, whatever the enclave. */
  function Resident(cfg: Config): (c: Container)
    ensures InEnclave(cfg, c)
  {
    Container("c1", "resident", 1, map[cfg.enclaveKey := cfg.enclaveId], [], [])
  }

  lemma OneHit(cfg: Config, labels: map<string, string>, c: Container)
    requires InEnclave(cfg, c)
    ensures Selection(cfg, [Listed(labels, Some(c))], [true]) == Some([c])
  {
    var listed := [Listed(labels, Some(c))];
    assert listed[..0] == [] && [true][..0] == [];
    assert Selection(cfg, [], []) == Some([]);
    assert [] + [c] == [c];
  }

  /** The empty selector promises nothing, and picks whatever is listed. */
  lemma EmptyPicksAll(cfg: Config, labels: map<string, string>, c: Container)
    requires InEnclave(cfg, c)
    ensures var sel := S.Selector(false, map[]);
            && MayHit(cfg, sel, [Listed(labels, Some(c))], [true])
            && Selection(cfg, [Listed(labels, Some(c))], [true]) == Some([c])
            && !Promised(cfg.prefix, sel, labels)
  {
    var sel := S.Selector(false, map[]);
    assert Want(sel) == map[];
    assert Enumerates([], Want(sel).Keys) && Matches(cfg.prefix, [], Want(sel), labels);
    OneHit(cfg, labels, c);
  }

  /** A hit that is not promised is a container picked that should not be. */
  lemma {:induction false} Broken(cfg: Config, sel: S.Selector, labels: map<string, string>)
    requires MayAnswer(cfg.prefix, sel, labels, true) && !Promised(cfg.prefix, sel, labels)
    ensures var listed := [Listed(labels, Some(Resident(cfg)))];
            MayHit(cfg, sel, listed, [true]) && !Keeps(cfg, sel, listed, [true], Resident(cfg))
  {
    hide MayAnswer, Promised, InEnclave;
    OneHit(cfg, labels, Resident(cfg));
  }

  /** What is not well spelled somewhere hits what it does not promise. */
  lemma Misspelled(prefix: string, sel: S.Selector) returns (labels: map<string, string>)
    requires !WellSpelled(prefix, sel)
    ensures MayAnswer(prefix, sel, labels, true) && !Promised(prefix, sel, labels)
  {
    if sel.labels == map[] {
      labels := map[];
      assert Want(sel) == map[];
      assert Enumerates([], Want(sel).Keys) && Matches(prefix, [], Want(sel), labels);
    } else {
      hide KeysAgree, Unsatisfiable, Documented, Want, Matches, Enumerates;
      var order, have := DisagreementShows(prefix, Want(sel));
      labels := have;
    }
  }

  /**
   * Resolution keeps the promise of a selector, for every listing and every visiting order, exactly when the
   * selector is not empty and keys that qualify to the same label allow the same values, or nothing can match.
   */
  lemma PromiseIff(cfg: Config, sel: S.Selector)
    ensures (forall listed, hits, c :: MayHit(cfg, sel, listed, hits) ==> Keeps(cfg, sel, listed, hits, c))
       <==> WellSpelled(cfg.prefix, sel)
  {
    if WellSpelled(cfg.prefix, sel) {
      forall listed, hits, c | MayHit(cfg, sel, listed, hits)
        ensures Keeps(cfg, sel, listed, hits, c)
      {
        ResolvesAsPromised(cfg, sel, listed, hits, c);
      }
    } else {
      hide WellSpelled, MayHit, Keeps, MayAnswer, Promised;
      var labels := Misspelled(cfg.prefix, sel);
      Broken(cfg, sel, labels);
    }
  }

  // ---- One answer ----

  ghost function PromisedHits(prefix: string, sel: S.Selector, listed: seq<Listed>): (hits: seq<bool>)
    ensures |hits| == |listed|
  {
    seq(|listed|, i requires 0 <= i < |listed| => Promised(prefix, sel, listed[i].labels))
  }

  /** A failure among the first k containers is a failure of the whole. */
  lemma {:induction false} FailsEarly(cfg: Config, listed: seq<Listed>, hits: seq<bool>, k: nat)
    requires |hits| == |listed| && k <= |listed| && Selection(cfg, listed[..k], hits[..k]).None?
    ensures Selection(cfg, listed, hits).None?
  {
    hide Selection, Picks;
    SelectionIff(cfg, listed[..k], hits[..k], Resident(cfg));
    SelectionIff(cfg, listed, hits, Resident(cfg));
    var i :| 0 <= i < k && hits[..k][i] && listed[..k][i].inspected.None?;
    assert hits[i] && listed[i].inspected.None?;
  }

  /** A well-spelled selector has one answer per listing, whatever the visiting orders. */
  lemma {:induction false} OneAnswer(cfg: Config, sel: S.Selector, listed: seq<Listed>, r: Listing)
    requires WellSpelled(cfg.prefix, sel) && MayResolve(cfg, sel, Some(listed), r)
    ensures r == Selection(cfg, listed, PromisedHits(cfg.prefix, sel, listed))
  {
    hide WellSpelled, MayAnswer, Selection, Promised;
    var hits :| Visited(cfg, sel, listed, hits, r) && (r.Some? ==> |hits| == |listed|);
    var promised, k := PromisedHits(cfg.prefix, sel, listed), |hits|;
    forall i | 0 <= i < k
      ensures hits[i] == promised[..k][i]
    {
      HitAsPromised(cfg.prefix, sel, listed[i].labels, hits[i]);
    }
    assert hits == promised[..k];
    if k == |listed| {
      assert listed[..k] == listed && promised[..k] == promised;
    } else {
      FailsEarly(cfg, listed, promised, k);
    }
  }

  /** A container of the listing that the selector asks for, said in its labels and those of the enclave. */
  ghost predicate AskedFor(cfg: Config, sel: S.Selector, one: Listed, c: Container) {
    && one.inspected == Some(c)
    && (cfg.enclaveId != "" ==> cfg.enclaveKey in c.labels && c.labels[cfg.enclaveKey] == cfg.enclaveId)
    && (!sel.all ==>
          forall k :: k in sel.labels ==>
                        var name := if '.' in k then k else cfg.prefix + k;
                        name in one.labels && sel.labels[k].Some? && one.labels[name] in sel.labels[k].value)
  }

  lemma PicksAsked(cfg: Config, sel: S.Selector, one: Listed, c: Container)
    requires !S.EmptySelector(sel)
    ensures Picks(cfg, one, Promised(cfg.prefix, sel, one.labels), c) <==> AskedFor(cfg, sel, one, c)
  {
    assert forall k :: k in Want(sel) <==> k in sel.labels;
    if !sel.all {
      forall k | k in sel.labels
        ensures var name := if '.' in k then k else cfg.prefix + k;
                (name in one.labels && one.labels[name] in Want(sel)[k]
                 <==> name in one.labels && sel.labels[k].Some? && one.labels[name] in sel.labels[k].value)
      {
      }
    }
  }

  /**
   * What a well-spelled selector picks, said in labels: of the containers listed, those of the enclave that carry, for
   * each key, completed by the prefix where it has no dot, one of its values; for "all", those of the enclave.
   */
  lemma PicksIff(cfg: Config, sel: S.Selector, listed: seq<Listed>, r: Listing, c: Container)
    requires WellSpelled(cfg.prefix, sel) && MayResolve(cfg, sel, Some(listed), r) && r.Some?
    ensures c in r.value <==> exists one :: one in listed && AskedFor(cfg, sel, one, c)
  {
    OneAnswer(cfg, sel, listed, r);
    var hits := PromisedHits(cfg.prefix, sel, listed);
    SelectionIff(cfg, listed, hits, c);
    hide WellSpelled, Promised, MayResolve, Selection, AskedFor, Picks;
    forall i | 0 <= i < |listed|
      ensures Picks(cfg, listed[i], hits[i], c) <==> AskedFor(cfg, sel, listed[i], c)
    {
      NotEmpty(cfg.prefix, sel);
      PicksAsked(cfg, sel, listed[i], c);
    }
    if one :| one in listed && AskedFor(cfg, sel, one, c) {
      var i :| 0 <= i < |listed| && listed[i] == one;
    }
  }

  lemma NotEmpty(prefix: string, sel: S.Selector)
    requires WellSpelled(prefix, sel)
    ensures !S.EmptySelector(sel)
  {
  }

  // ---- The order of an answer ----

  /**
   * A listing is answered from left to right: the answer to a listing in two parts is that to the first, then that to
   * the second, or a failure of either.
   */
  lemma {:induction false} SelectionConcat(cfg: Config, a: seq<Listed>, ha: seq<bool>, b: seq<Listed>, hb: seq<bool>)
    requires |a| == |ha| && |b| == |hb|
    ensures var (x, y) := (Selection(cfg, a, ha), Selection(cfg, b, hb));
            Selection(cfg, a + b, ha + hb)
            == if x.None? || y.None? then None else Some(x.value + y.value)
    decreases |b|
  {
    hide InEnclave;
    if b == [] {
      assert a + b == a && ha + hb == ha;
      assert Selection(cfg, b, hb) == Some([]);
      assert Selection(cfg, a, ha).Some? ==> Selection(cfg, a, ha).value + [] == Selection(cfg, a, ha).value;
    } else {
      var n := |b| - 1;
      SelectionConcat(cfg, a, ha, b[..n], hb[..n]);
      assert (a + b)[..|a| + n] == a + b[..n] && (ha + hb)[..|a| + n] == ha + hb[..n];
      assert (a + b)[|a| + n] == b[n] && (ha + hb)[|a| + n] == hb[n];
      var x, y := Selection(cfg, a, ha), Selection(cfg, b[..n], hb[..n]);
      if x.Some? && y.Some? && b[n].inspected.Some? {
        assert x.value + (y.value + [b[n].inspected.value]) == (x.value + y.value) + [b[n].inspected.value];
      }
    }
  }

  lemma SelectionOne(cfg: Config, one: Listed, hit: bool)
    ensures Selection(cfg, [one], [hit])
         == if !hit then Some([])
            else if one.inspected.None? then None
            else if cfg.enclaveId == ""
                    || (cfg.enclaveKey in one.inspected.value.labels
                        && one.inspected.value.labels[cfg.enclaveKey] == cfg.enclaveId) then
              Some([one.inspected.value])
            else Some([])
  {
    assert [one][..0] == [] && [hit][..0] == [];
    assert Selection(cfg, [], []) == Some([]);
    assert one.inspected.Some? ==> [] + [one.inspected.value] == [one.inspected.value];
  }

  // ---- Copies ----

  /** A stored copy wants what the original wants, and may be answered alike. */
  lemma CloneAnswers(prefix: string, sel: S.Selector, labels: map<string, string>, hit: bool)
    ensures Want(S.CloneSelector(sel)) == Want(sel)
    ensures MayAnswer(prefix, S.CloneSelector(sel), labels, hit) <==> MayAnswer(prefix, sel, labels, hit)
  {
    assert Want(S.CloneSelector(sel)) == Want(sel);
  }
}
