/**
 * Strong entity tags of states, and the If-Match precondition (internal/api/api.go; sections 8.8.3 and 13.1.1 of
 * RFC 9110).
 */
module ETag {
  import opened Wrappers
  import opened State
  import opened Json
  import Text

  /** The hex digest of a canonical JSON form. */
  type Hash = Json -> string

  /** SHA-256 taken as injective, with hex digests. */
  ghost predicate Digest(hash: Hash) {
    && (forall a, b :: hash(a) == hash(b) ==> a == b)
    && (forall a, c :: c in hash(a) ==> '0' <= c <= '9' || 'a' <= c <= 'f')
  }

  // ---- The canonical JSON form ----

  function Field(name: string, present: bool, value: Json): map<string, Json> {
    if present then map[name := value] else map[]
  }

  function TextField(name: string, value: string): map<string, Json> {
    Field(name, value != "", Str(value))
  }

  predicate EncodableSelectors(sels: seq<Selector>) {
    forall sel :: sel in sels ==> !EmptySelector(sel)
  }

  /** No selector is empty; otherwise marshalling fails. */
  predicate Encodable(s: State) {
    && (forall p :: p in s.partitions ==> EncodableSelectors(p.groups))
    && (forall sh :: sh in s.shaping ==> EncodableShaping(sh))
  }

  function EncodeSelectors(sels: seq<Selector>): seq<Json>
    requires EncodableSelectors(sels)
  {
    seq(|sels|, i requires 0 <= i < |sels| => EncodeSelector(sels[i]))
  }

  function EncodePartition(p: Partition): Json
    requires EncodableSelectors(p.groups)
  {
    Obj(map["name" := Str(p.name), "groups" := Arr(EncodeSelectors(p.groups))]
        + Field("scope", p.scope != [], Strings(p.scope))
        + Field("symmetric", p.symmetric.Some?, if p.symmetric.Some? then Bool(p.symmetric.value) else Null))
  }

  predicate EncodableShaping(sh: Shaping) {
    EncodableSelectors(sh.between) && (sh.target.Some? ==> !EmptySelector(sh.target.value))
  }

  function ShapingHead(sh: Shaping): map<string, Json>
    requires EncodableShaping(sh)
  {
    map["name" := Str(sh.name)]
    + Field("target", sh.target.Some?, if sh.target.Some? then EncodeSelector(sh.target.value) else Null)
    + Field("between", sh.between != [], Arr(EncodeSelectors(sh.between)))
    + Field("scope", sh.scope != [], Strings(sh.scope))
  }

  function ShapingParams(sh: Shaping): map<string, Json> {
    TextField("direction", sh.direction) + TextField("delay", sh.delay) + TextField("jitter", sh.jitter)
    + TextField("loss", sh.loss) + TextField("bandwidth", sh.bandwidth)
  }

  function EncodeShaping(sh: Shaping): Json
    requires EncodableShaping(sh)
  {
    Obj(ShapingHead(sh) + ShapingParams(sh))
  }

  function Encode(s: State): Json
    requires Encodable(s)
  {
    var partitions := seq(|s.partitions|, i requires 0 <= i < |s.partitions| => EncodePartition(s.partitions[i]));
    var shaping := seq(|s.shaping|, i requires 0 <= i < |s.shaping| => EncodeShaping(s.shaping[i]));
    Obj(Field("partitions", partitions != [], Arr(partitions)) + Field("shaping", shaping != [], Arr(shaping)))
  }

  function Quoted(digest: string): string {
    "\"" + digest + "\""
  }

  /** StateETag */
  function Tag(hash: Hash, s: State): string
    requires Encodable(s)
  {
    Quoted(hash(Encode(s)))
  }

  // ---- The tag identifies the state ----

  /** An "all" selector carries no labels: true of everything that was decoded. */
  predicate Plain(sel: Selector) {
    sel.all ==> sel.labels == map[]
  }

  predicate PlainState(s: State) {
    && (forall p, g :: p in s.partitions && g in p.groups ==> Plain(g))
    && (forall sh :: sh in s.shaping ==> (sh.target.Some? ==> Plain(sh.target.value)))
    && (forall sh, g :: sh in s.shaping && g in sh.between ==> Plain(g))
  }

  lemma StringsInjective(a: seq<string>, b: seq<string>)
    requires Strings(a) == Strings(b)
    ensures a == b
  {
    var x, y := Strings(a).items, Strings(b).items;
    assert |a| == |x| == |b|;
    forall i | 0 <= i < |a|
      ensures a[i] == b[i]
    {
      assert x[i] == Str(a[i]) && y[i] == Str(b[i]);
    }
  }

  lemma SelectorInjective(a: Selector, b: Selector)
    requires !EmptySelector(a) && !EmptySelector(b) && Plain(a) && Plain(b)
    requires EncodeSelector(a) == EncodeSelector(b)
    ensures a == b
  {
    if !a.all {
      var x, y := EncodeSelector(a).fields, EncodeSelector(b).fields;
      assert a.labels.Keys == x.Keys == b.labels.Keys;
      forall k | k in a.labels
        ensures a.labels[k] == b.labels[k]
      {
        assert x[k] == EncodeValues(a.labels[k]) && y[k] == EncodeValues(b.labels[k]);
        if a.labels[k].Some? {
          StringsInjective(a.labels[k].value, b.labels[k].value);
        }
      }
      assert a.labels == b.labels;
    }
  }

  lemma SelectorsInjective(a: seq<Selector>, b: seq<Selector>)
    requires EncodableSelectors(a) && EncodableSelectors(b)
    requires (forall sel :: sel in a ==> Plain(sel)) && forall sel :: sel in b ==> Plain(sel)
    requires EncodeSelectors(a) == EncodeSelectors(b)
    ensures a == b
  {
    var x, y := EncodeSelectors(a), EncodeSelectors(b);
    assert |a| == |x| == |b|;
    forall i | 0 <= i < |a|
      ensures a[i] == b[i]
    {
      assert x[i] == EncodeSelector(a[i]) && y[i] == EncodeSelector(b[i]);
      SelectorInjective(a[i], b[i]);
    }
  }

  lemma PartitionInjective(a: Partition, b: Partition)
    requires EncodableSelectors(a.groups) && EncodableSelectors(b.groups)
    requires (forall sel :: sel in a.groups ==> Plain(sel)) && forall sel :: sel in b.groups ==> Plain(sel)
    requires EncodePartition(a) == EncodePartition(b)
    ensures a == b
  {
    hide EncodeSelectors, Strings;
    var x, y := EncodePartition(a).fields, EncodePartition(b).fields;
    assert x["name"] == Str(a.name) && y["name"] == Str(b.name);
    assert x["groups"] == Arr(EncodeSelectors(a.groups)) && y["groups"] == Arr(EncodeSelectors(b.groups));
    SelectorsInjective(a.groups, b.groups);
    assert "scope" in x <==> a.scope != [];
    assert "scope" in y <==> b.scope != [];
    if a.scope != [] {
      assert x["scope"] == Strings(a.scope) && y["scope"] == Strings(b.scope);
      StringsInjective(a.scope, b.scope);
    }
    assert "symmetric" in x <==> a.symmetric.Some?;
    assert "symmetric" in y <==> b.symmetric.Some?;
    if a.symmetric.Some? {
      assert x["symmetric"] == Bool(a.symmetric.value) && y["symmetric"] == Bool(b.symmetric.value);
    }
  }

  ghost predicate FieldIs(fields: map<string, Json>, name: string, present: bool, value: Json) {
    (name in fields <==> present) && (present ==> fields[name] == value)
  }

  lemma HeadFields(sh: Shaping)
    requires EncodableShaping(sh)
    ensures var f := ShapingHead(sh);
            && f.Keys <= {"name", "target", "between", "scope"}
            && FieldIs(f, "name", true, Str(sh.name))
            && FieldIs(f, "target", sh.target.Some?, if sh.target.Some? then EncodeSelector(sh.target.value) else Null)
            && FieldIs(f, "between", sh.between != [], Arr(EncodeSelectors(sh.between)))
            && FieldIs(f, "scope", sh.scope != [], Strings(sh.scope))
  {
  }

  /** Adding one text field sets that field, and no other. */
  lemma AddText(fields: map<string, Json>, name: string, value: string, keys: set<string>)
    requires name !in keys && fields.Keys <= keys
    ensures var f := fields + TextField(name, value);
            && f.Keys <= keys + {name}
            && FieldIs(f, name, value != "", Str(value))
            && KeepsFields(fields, f, keys)
  {
  }

  ghost predicate KeepsFields(a: map<string, Json>, b: map<string, Json>, keys: set<string>) {
    forall k :: k in keys ==> (k in a <==> k in b) && (k in a ==> a[k] == b[k])
  }

  lemma ParamFields(sh: Shaping)
    ensures var f := ShapingParams(sh);
            && f.Keys <= {"direction", "delay", "jitter", "loss", "bandwidth"}
            && FieldIs(f, "direction", sh.direction != "", Str(sh.direction))
            && FieldIs(f, "delay", sh.delay != "", Str(sh.delay))
            && FieldIs(f, "jitter", sh.jitter != "", Str(sh.jitter))
            && FieldIs(f, "loss", sh.loss != "", Str(sh.loss))
            && FieldIs(f, "bandwidth", sh.bandwidth != "", Str(sh.bandwidth))
  {
    var f1 := TextField("direction", sh.direction);
    AddText(map[], "direction", sh.direction, {});
    assert map[] + f1 == f1;
    hide TextField;
    AddText(f1, "delay", sh.delay, {"direction"});
    var f2 := f1 + TextField("delay", sh.delay);
    AddText(f2, "jitter", sh.jitter, {"direction", "delay"});
    var f3 := f2 + TextField("jitter", sh.jitter);
    AddText(f3, "loss", sh.loss, {"direction", "delay", "jitter"});
    var f4 := f3 + TextField("loss", sh.loss);
    AddText(f4, "bandwidth", sh.bandwidth, {"direction", "delay", "jitter", "loss"});
  }

  /** The two halves of a shaping rule share no field, so equal encodings have equal halves. */
  lemma HalvesInjective(a: Shaping, b: Shaping)
    requires EncodableShaping(a) && EncodableShaping(b) && EncodeShaping(a) == EncodeShaping(b)
    ensures ShapingHead(a) == ShapingHead(b) && ShapingParams(a) == ShapingParams(b)
  {
    HeadFields(a);
    HeadFields(b);
    ParamFields(a);
    ParamFields(b);
    var head, params := {"name", "target", "between", "scope"}, {"direction", "delay", "jitter", "loss", "bandwidth"};
    assert head !! params;
    hide ShapingHead, ShapingParams, FieldIs;
    MapHalves(ShapingHead(a), ShapingParams(a), ShapingHead(b), ShapingParams(b), head, params);
  }

  lemma MapHalves(a1: map<string, Json>, a2: map<string, Json>, b1: map<string, Json>, b2: map<string, Json>,
                  k1: set<string>, k2: set<string>)
    requires k1 !! k2 && a1.Keys <= k1 && b1.Keys <= k1 && a2.Keys <= k2 && b2.Keys <= k2
    requires a1 + a2 == b1 + b2
    ensures a1 == b1 && a2 == b2
  {
    var sum := a1 + a2;
    assert a1 == (map k | k in sum && k in k1 :: sum[k]);
    assert b1 == (map k | k in sum && k in k1 :: sum[k]);
    assert a2 == (map k | k in sum && k in k2 :: sum[k]);
    assert b2 == (map k | k in sum && k in k2 :: sum[k]);
  }

  lemma ShapingInjective(a: Shaping, b: Shaping)
    requires EncodableShaping(a) && (a.target.Some? ==> Plain(a.target.value))
    requires EncodableShaping(b) && (b.target.Some? ==> Plain(b.target.value))
    requires (forall sel :: sel in a.between ==> Plain(sel)) && forall sel :: sel in b.between ==> Plain(sel)
    requires EncodeShaping(a) == EncodeShaping(b)
    ensures a == b
  {
    HalvesInjective(a, b);
    hide ShapingHead, ShapingParams, EncodeSelectors, EncodeSelector, Strings;
    HeadFields(a);
    HeadFields(b);
    ParamFields(a);
    ParamFields(b);
    if a.target.Some? {
      SelectorInjective(a.target.value, b.target.value);
    }
    if a.between != [] {
      SelectorsInjective(a.between, b.between);
    }
    if a.scope != [] {
      StringsInjective(a.scope, b.scope);
    }
  }

  lemma EncodeInjective(a: State, b: State)
    requires Encodable(a) && Encodable(b) && PlainState(a) && PlainState(b)
    requires Encode(a) == Encode(b)
    ensures a == b
  {
    hide EncodePartition, EncodeShaping;
    var x, y := Encode(a).fields, Encode(b).fields;
    assert "partitions" in x <==> a.partitions != [];
    assert "partitions" in y <==> b.partitions != [];
    assert "shaping" in x <==> a.shaping != [];
    assert "shaping" in y <==> b.shaping != [];
    if a.partitions != [] {
      var ps, qs := x["partitions"].items, y["partitions"].items;
      assert |ps| == |a.partitions| && |qs| == |b.partitions|;
      forall i | 0 <= i < |a.partitions|
        ensures a.partitions[i] == b.partitions[i]
      {
        assert a.partitions[i] in a.partitions && b.partitions[i] in b.partitions;
        assert ps[i] == EncodePartition(a.partitions[i]) && qs[i] == EncodePartition(b.partitions[i]);
        PartitionInjective(a.partitions[i], b.partitions[i]);
      }
    }
    if a.shaping != [] {
      var ss, ts := x["shaping"].items, y["shaping"].items;
      assert |ss| == |a.shaping| && |ts| == |b.shaping|;
      forall i | 0 <= i < |a.shaping|
        ensures a.shaping[i] == b.shaping[i]
      {
        assert a.shaping[i] in a.shaping && b.shaping[i] in b.shaping;
        assert ss[i] == EncodeShaping(a.shaping[i]) && ts[i] == EncodeShaping(b.shaping[i]);
        ShapingInjective(a.shaping[i], b.shaping[i]);
      }
    }
  }

  /** A strong validator: two states carry the same tag exactly when they are the same state. */
  lemma TagIdentifiesState(hash: Hash, a: State, b: State)
    requires Digest(hash)
    requires Encodable(a) && Encodable(b) && PlainState(a) && PlainState(b)
    ensures Tag(hash, a) == Tag(hash, b) <==> a == b
  {
    if Tag(hash, a) == Tag(hash, b) {
      assert hash(Encode(a)) == Tag(hash, a)[1..|Tag(hash, a)| - 1] == hash(Encode(b));
      EncodeInjective(a, b);
    }
  }

  /** A tag is a strong entity tag: lower-case hex digits between double quotes. */
  lemma TagSyntax(hash: Hash, s: State)
    requires Digest(hash) && Encodable(s)
    ensures var tag := Tag(hash, s);
            && |tag| >= 2 && tag[0] == '\"' && tag[|tag| - 1] == '\"'
            && forall i :: 0 < i < |tag| - 1 ==> '0' <= tag[i] <= '9' || 'a' <= tag[i] <= 'f'
  {
    var digest := hash(Encode(s));
    forall i | 0 < i < |Quoted(digest)| - 1
      ensures Quoted(digest)[i] in digest
    {
      assert Quoted(digest)[i] == digest[i - 1];
    }
  }

  // ---- If-Match ----

  predicate Allows(header: string, current: string) {
    header == "" || exists t :: t in Text.Split(header, ',') && Text.TrimSpace(t) in ["*", current]
  }

  method IfMatchAllows(header: string, current: string) returns (allowed: bool)
    ensures allowed <==> Allows(header, current)
  {
    if header == "" {
      return true;
    }
    var tokens := Text.Split(header, ',');
    for i := 0 to |tokens|
      invariant forall k :: 0 <= k < i ==> Text.TrimSpace(tokens[k]) !in ["*", current]
    {
      var token := Text.TrimSpace(tokens[i]);
      if token == "*" || token == current {
        assert tokens[i] in tokens;
        return true;
      }
    }
    allowed := false;
  }

  /** The entries of an If-Match list: a star, or one of the service's own tags, after some blanks. */
  function Token(hash: Hash, seen: Option<Json>): string {
    if seen.None? then "*" else Quoted(hash(seen.value))
  }

  function Entries(hash: Hash, blanks: seq<string>, seen: seq<Option<Json>>): seq<string>
    requires |blanks| == |seen|
  {
    seq(|seen|, i requires 0 <= i < |seen| => blanks[i] + Token(hash, seen[i]))
  }

  lemma TokenShape(hash: Hash, blank: string, seen: Option<Json>)
    requires Digest(hash) && forall c :: c in blank ==> c in " \t"
    ensures ',' !in blank + Token(hash, seen)
    ensures Text.TrimSpace(blank + Token(hash, seen)) == Token(hash, seen)
  {
    var token := Token(hash, seen);
    assert " \t" == [' ', '\t'];
    assert token != "" && Text.Tight(token);
    Text.TrimBlanks(blank, token);
  }

  lemma TokenIff(hash: Hash, seen: Option<Json>, current: Json)
    requires Digest(hash)
    ensures Token(hash, seen) in ["*", Quoted(hash(current))] <==> seen.None? || seen == Some(current)
  {
    var tag := Quoted(hash(current));
    assert tag[0] == '\"' && "*"[0] == '*';
    if seen.Some? {
      assert Token(hash, seen)[0] == '\"';
      if Token(hash, seen) == tag {
        assert hash(seen.value) == tag[1..|tag| - 1] == hash(current);
      }
    }
  }

  /** A list of tags and stars, blanks around the commas, lets a write through exactly when one of them is meant. */
  lemma ListAllowsIff(hash: Hash, blanks: seq<string>, seen: seq<Option<Json>>, current: Json)
    requires Digest(hash) && |blanks| == |seen| && seen != []
    requires forall blank, c :: blank in blanks && c in blank ==> c in " \t"
    ensures Allows(Text.Join(Entries(hash, blanks, seen), ','), Quoted(hash(current)))
       <==> None in seen || Some(current) in seen
  {
    var entries := Entries(hash, blanks, seen);
    forall i | 0 <= i < |seen|
      ensures ',' !in entries[i] && Text.TrimSpace(entries[i]) == Token(hash, seen[i]) && entries[i] != ""
      ensures Token(hash, seen[i]) in ["*", Quoted(hash(current))] <==> seen[i].None? || seen[i] == Some(current)
    {
      assert blanks[i] in blanks;
      TokenShape(hash, blanks[i], seen[i]);
      TokenIff(hash, seen[i], current);
    }
    Text.SplitJoin(entries, ',');
    Text.JoinNotEmpty(entries, ',');
    hide Token, Quoted, Digest, Text.Join, Text.Split, Text.TrimSpace;
    var header, split := Text.Join(entries, ','), Text.Split(Text.Join(entries, ','), ',');
    assert split == entries;
    if i :| 0 <= i < |seen| && (seen[i].None? || seen[i] == Some(current)) {
      assert entries[i] in split;
    }
  }

  /** Tags are compared strongly: a weak form of the current tag lets nothing through. */
  lemma WeakTagRefused(hash: Hash, current: Json)
    requires Digest(hash)
    ensures !Allows("W/" + Quoted(hash(current)), Quoted(hash(current)))
  {
    var tag := "W/" + Quoted(hash(current));
    assert ',' !in tag;
    Text.SplitPlain(tag, ',');
    Text.TrimTight(tag);
    assert tag[0] == 'W' && "*"[0] == '*';
  }

  /** A header that is one of the service's own tags lets a write through exactly when that tag is the current one. */
  lemma OwnTagAllowsIff(hash: Hash, seen: Json, current: Json)
    requires Digest(hash)
    ensures Allows(Quoted(hash(seen)), Quoted(hash(current))) <==> seen == current
  {
    var tag := Quoted(hash(seen));
    assert ',' !in tag;
    Text.SplitPlain(tag, ',');
    Text.TrimTight(tag);
    var split := Text.Split(tag, ',');
    assert split == [tag];
    assert tag in split;
    assert tag[0] == '\"';
    if tag == Quoted(hash(current)) {
      assert hash(seen) == tag[1..|tag| - 1] == hash(current);
    }
  }
}
