/**
 * How states arrive from request bodies and config files, and what a state becomes that is read and written back
 * (internal/state/state.go, internal/api/api.go, internal/config/config.go).
 */
module Wire {
  import opened Wrappers
  import opened State
  import opened Json
  import T = ETag

  // ---- Decoding a state ----

  const STATE_FIELDS := {"partitions", "shaping"}
  const PARTITION_FIELDS := {"name", "groups", "scope", "symmetric"}
  const HEAD_FIELDS := {"name", "target", "between", "scope"}
  const PARAM_FIELDS := {"direction", "delay", "jitter", "loss", "bandwidth"}

  /** A field that is absent decodes like one that is null. */
  function Get(fields: map<string, Json>, name: string): Json {
    if name in fields then fields[name] else Null
  }

  function DecodeAll<A>(items: seq<Json>, decode: Json -> Option<A>): Option<seq<A>> {
    if items == [] then Some([])
    else
      var first, rest := decode(items[0]), DecodeAll(items[1..], decode);
      if first.None? || rest.None? then None else Some([first.value] + rest.value)
  }

  /** A JSON array; null stands for the empty one. */
  function DecodeList<A>(j: Json, decode: Json -> Option<A>): Option<seq<A>> {
    match j
    case Null => Some([])
    case Arr(items) => DecodeAll(items, decode)
    case _ => None
  }

  function DecodeText(j: Json): Option<string> {
    match j
    case Null => Some("")
    case Str(s) => Some(s)
    case _ => None
  }

  function DecodeFlag(j: Json): Option<Option<bool>> {
    match j
    case Null => Some(None)
    case Bool(b) => Some(Some(b))
    case _ => None
  }

  function DecodeTarget(j: Json): Option<Option<Selector>> {
    if j.Null? then Some(None)
    else
      var sel := DecodeSelector(j);
      if sel.None? then None else Some(Some(sel.value))
  }

  function DecodePartitionFields(f: map<string, Json>): Option<Partition> {
    var name, groups := DecodeText(Get(f, "name")), DecodeList(Get(f, "groups"), DecodeSelector);
    var scope, symmetric := DecodeList(Get(f, "scope"), DecodeText), DecodeFlag(Get(f, "symmetric"));
    if name.None? || groups.None? || scope.None? || symmetric.None? then None
    else Some(Partition(name.value, groups.value, scope.value, symmetric.value))
  }

  function DecodeShapingFields(f: map<string, Json>): Option<Shaping> {
    var name, target := DecodeText(Get(f, "name")), DecodeTarget(Get(f, "target"));
    var between, scope := DecodeList(Get(f, "between"), DecodeSelector), DecodeList(Get(f, "scope"), DecodeText);
    var direction, delay := DecodeText(Get(f, "direction")), DecodeText(Get(f, "delay"));
    var jitter, loss := DecodeText(Get(f, "jitter")), DecodeText(Get(f, "loss"));
    var bandwidth := DecodeText(Get(f, "bandwidth"));
    if name.None? || target.None? || between.None? || scope.None? || direction.None? || delay.None? || jitter.None?
       || loss.None? || bandwidth.None? then None
    else
      Some(Shaping(name.value, target.value, between.value, scope.value, direction.value, delay.value, jitter.value,
                   loss.value, bandwidth.value))
  }

  /** A null entry is a partition without a name; unknown fields are an error. */
  function DecodePartition(j: Json): Option<Partition> {
    match j
    case Null => DecodePartitionFields(map[])
    case Obj(f) => if f.Keys <= PARTITION_FIELDS then DecodePartitionFields(f) else None
    case _ => None
  }

  function DecodeShaping(j: Json): Option<Shaping> {
    match j
    case Null => DecodeShapingFields(map[])
    case Obj(f) => if f.Keys <= HEAD_FIELDS + PARAM_FIELDS then DecodeShapingFields(f) else None
    case _ => None
  }

  function DecodeStateFields(f: map<string, Json>): Option<State> {
    var partitions := DecodeList(Get(f, "partitions"), DecodePartition);
    var shaping := DecodeList(Get(f, "shaping"), DecodeShaping);
    if partitions.None? || shaping.None? then None else Some(State(partitions.value, shaping.value))
  }

  function DecodeState(j: Json): Option<State> {
    match j
    case Null => Some(EMPTY)
    case Obj(f) => if f.Keys <= STATE_FIELDS then DecodeStateFields(f) else None
    case _ => None
  }

  // ---- What arrives ----

  lemma {:induction false} DecodeAllIff<A>(items: seq<Json>, decode: Json -> Option<A>)
    ensures var r := DecodeAll(items, decode);
            && (r.Some? <==> forall i :: 0 <= i < |items| ==> decode(items[i]).Some?)
            && (r.Some? ==>
                  |r.value| == |items| && forall i :: 0 <= i < |items| ==> decode(items[i]) == Some(r.value[i]))
  {
    if items == [] {
    } else {
      DecodeAllIff(items[1..], decode);
      assert forall i :: 0 < i < |items| ==> items[i] == items[1..][i - 1];
    }
  }

  lemma DecodeAllIs<A>(items: seq<Json>, decode: Json -> Option<A>, values: seq<A>)
    requires |items| == |values| && forall i :: 0 <= i < |items| ==> decode(items[i]) == Some(values[i])
    ensures DecodeAll(items, decode) == Some(values)
  {
    DecodeAllIff(items, decode);
    var r := DecodeAll(items, decode).value;
    assert forall i :: 0 <= i < |items| ==> Some(r[i]) == decode(items[i]) == Some(values[i]);
    assert r == values;
  }

  ghost predicate DecodedSelectors(sels: seq<Selector>) {
    forall sel :: sel in sels ==> Decoded(sel)
  }

  ghost predicate DecodedShaping(sh: Shaping) {
    DecodedSelectors(sh.between) && (sh.target.Some? ==> Decoded(sh.target.value))
  }

  /** Every selector has the shape that decoding produces. */
  ghost predicate FromJson(s: State) {
    && (forall p :: p in s.partitions ==> DecodedSelectors(p.groups))
    && (forall sh :: sh in s.shaping ==> DecodedShaping(sh))
  }

  lemma DecodedList(j: Json)
    requires DecodeList(j, DecodeSelector).Some?
    ensures DecodedSelectors(DecodeList(j, DecodeSelector).value)
  {
    if j.Arr? {
      DecodeAllIff(j.items, DecodeSelector);
      forall sel | sel in DecodeList(j, DecodeSelector).value
        ensures Decoded(sel)
      {
        var i :| 0 <= i < |j.items| && DecodeList(j, DecodeSelector).value[i] == sel;
        DecodeIsStable(j.items[i]);
      }
    }
  }

  lemma DecodedPartition(j: Json)
    requires DecodePartition(j).Some?
    ensures DecodedSelectors(DecodePartition(j).value.groups)
  {
    hide DecodedSelectors, DecodeText, DecodeFlag;
    DecodedList(Get(if j.Obj? then j.fields else map[], "groups"));
    hide DecodeList, Get;
  }

  lemma DecodedShape(j: Json)
    requires DecodeShaping(j).Some?
    ensures DecodedShaping(DecodeShaping(j).value)
  {
    var f := if j.Obj? then j.fields else map[];
    hide DecodeText, DecodedSelectors, Get;
    DecodedList(Get(f, "between"));
    hide DecodeList;
    if !Get(f, "target").Null? && DecodeSelector(Get(f, "target")).Some? {
      DecodeIsStable(Get(f, "target"));
    }
    hide DecodeSelector, Decoded;
  }

  /** Whatever is decoded, from a request body or a config file, has selectors of that shape. */
  lemma DecodedFromJson(j: Json)
    requires DecodeState(j).Some?
    ensures FromJson(DecodeState(j).value)
  {
    hide DecodePartition, DecodeShaping, DecodedSelectors, DecodedShaping;
    var s := DecodeState(j).value;
    var f := if j.Obj? then j.fields else map[];
    var ps, rules := Get(f, "partitions"), Get(f, "shaping");
    if ps.Arr? {
      DecodeAllIff(ps.items, DecodePartition);
      forall p | p in s.partitions
        ensures DecodedSelectors(p.groups)
      {
        var i :| 0 <= i < |ps.items| && s.partitions[i] == p;
        DecodedPartition(ps.items[i]);
      }
    }
    if rules.Arr? {
      DecodeAllIff(rules.items, DecodeShaping);
      forall sh | sh in s.shaping
        ensures DecodedShaping(sh)
      {
        var i :| 0 <= i < |rules.items| && s.shaping[i] == sh;
        DecodedShape(rules.items[i]);
      }
    }
  }

  /** The empty selector never arrives. */
  lemma NoEmptySelector(s: State)
    requires FromJson(s)
    ensures forall p, sel :: p in s.partitions && sel in p.groups ==> !EmptySelector(sel)
    ensures forall sh :: sh in s.shaping && sh.target.Some? ==> !EmptySelector(sh.target.value)
  {
  }

  // ---- Which bodies decode ----

  ghost predicate TextLike(j: Json) {
    j.Null? || j.Str?
  }

  ghost predicate TextList(j: Json) {
    j.Null? || (j.Arr? && forall i :: 0 <= i < |j.items| ==> TextLike(j.items[i]))
  }

  ghost predicate SelectorList(j: Json) {
    j.Null? || (j.Arr? && forall i :: 0 <= i < |j.items| ==> DecodeSelector(j.items[i]).Some?)
  }

  /** A partition as the schema has it: known fields only, each absent, null or of its type. */
  ghost predicate PartitionLike(j: Json) {
    j.Null?
    || (j.Obj?
        && j.fields.Keys <= {"name", "groups", "scope", "symmetric"}
        && ("name" in j.fields ==> TextLike(j.fields["name"]))
        && ("groups" in j.fields ==> SelectorList(j.fields["groups"]))
        && ("scope" in j.fields ==> TextList(j.fields["scope"]))
        && ("symmetric" in j.fields ==> j.fields["symmetric"].Null? || j.fields["symmetric"].Bool?))
  }

  /** The same for a shaping rule. */
  ghost predicate ShapingLike(j: Json) {
    j.Null?
    || (j.Obj?
        && j.fields.Keys <= {"name", "target", "between", "scope",
                             "direction", "delay", "jitter", "loss", "bandwidth"}
        && ("target" in j.fields ==> j.fields["target"].Null? || DecodeSelector(j.fields["target"]).Some?)
        && ("between" in j.fields ==> SelectorList(j.fields["between"]))
        && ("scope" in j.fields ==> TextList(j.fields["scope"]))
        && forall name :: name in ["name", "direction", "delay", "jitter", "loss", "bandwidth"] && name in j.fields ==>
                            TextLike(j.fields[name]))
  }

  /** And for a state. */
  ghost predicate StateLike(j: Json) {
    j.Null?
    || (j.Obj?
        && j.fields.Keys <= {"partitions", "shaping"}
        && ("partitions" in j.fields ==>
              var ps := j.fields["partitions"];
              ps.Null? || (ps.Arr? && forall i :: 0 <= i < |ps.items| ==> PartitionLike(ps.items[i])))
        && ("shaping" in j.fields ==>
              var rules := j.fields["shaping"];
              rules.Null? || (rules.Arr? && forall i :: 0 <= i < |rules.items| ==> ShapingLike(rules.items[i]))))
  }

  lemma DecodeListIff<A>(j: Json, decode: Json -> Option<A>)
    ensures DecodeList(j, decode).Some?
       <==> j.Null? || (j.Arr? && forall i :: 0 <= i < |j.items| ==> decode(j.items[i]).Some?)
  {
    if j.Arr? {
      DecodeAllIff(j.items, decode);
    }
  }

  lemma ListsIff(j: Json)
    ensures DecodeList(j, DecodeText).Some? <==> TextList(j)
    ensures DecodeList(j, DecodeSelector).Some? <==> SelectorList(j)
  {
    DecodeListIff(j, DecodeText);
    DecodeListIff(j, DecodeSelector);
    hide DecodeSelector, DecodeList;
  }

  lemma PartitionIff(j: Json)
    ensures DecodePartition(j).Some? <==> PartitionLike(j)
  {
    var f := if j.Obj? then j.fields else map[];
    ListsIff(Get(f, "groups"));
    ListsIff(Get(f, "scope"));
    hide DecodeList, DecodeSelector, TextList, SelectorList;
    assert TextList(Null) && SelectorList(Null) by {
      NullLists();
    }
  }

  lemma NullLists()
    ensures TextList(Null) && SelectorList(Null)
  {
  }

  lemma ShapingIff(j: Json)
    ensures DecodeShaping(j).Some? <==> ShapingLike(j)
  {
    var f := if j.Obj? then j.fields else map[];
    ListsIff(Get(f, "between"));
    ListsIff(Get(f, "scope"));
    NullLists();
    hide DecodeList, DecodeSelector, TextList, SelectorList;
    if j.Obj? {
      FieldNames();
      hide HEAD_FIELDS, PARAM_FIELDS;
      TextsOf(f, ["name", "direction", "delay", "jitter", "loss", "bandwidth"]);
    }
  }

  lemma FieldNames()
    ensures HEAD_FIELDS + PARAM_FIELDS == {"name", "target", "between", "scope",
                                           "direction", "delay", "jitter", "loss", "bandwidth"}
  {
  }

  lemma TextsOf(f: map<string, Json>, texts: seq<string>)
    requires texts == ["name", "direction", "delay", "jitter", "loss", "bandwidth"]
    ensures (forall name :: name in texts && name in f ==> TextLike(f[name]))
       <==> && DecodeText(Get(f, "name")).Some? && DecodeText(Get(f, "direction")).Some?
            && DecodeText(Get(f, "delay")).Some? && DecodeText(Get(f, "jitter")).Some?
            && DecodeText(Get(f, "loss")).Some? && DecodeText(Get(f, "bandwidth")).Some?
  {
    forall name
      ensures DecodeText(Get(f, name)).Some? <==> (name in f ==> TextLike(f[name]))
    {
    }
    hide Get, DecodeText;
    assert "name" in texts && "direction" in texts && "delay" in texts;
    assert "jitter" in texts && "loss" in texts && "bandwidth" in texts;
  }

  /** A body decodes exactly when it follows the schema: a typing error or an unknown field anywhere is an error. */
  lemma DecodeStateIff(j: Json)
    ensures DecodeState(j).Some? <==> StateLike(j)
  {
    var f := if j.Obj? then j.fields else map[];
    DecodeListIff(Get(f, "partitions"), DecodePartition);
    DecodeListIff(Get(f, "shaping"), DecodeShaping);
    forall x
      ensures DecodePartition(x).Some? <==> PartitionLike(x)
      ensures DecodeShaping(x).Some? <==> ShapingLike(x)
    {
      PartitionIff(x);
      ShapingIff(x);
    }
    hide DecodePartition, DecodeShaping, PartitionLike, ShapingLike, DecodeList;
  }

  // ---- Numbers in selectors ----

  /** An array with `spell` on each of its items. */
  function SpelledItems(j: Json, spell: Json -> Json): Json {
    if j.Arr? then Arr(seq(|j.items|, i requires 0 <= i < |j.items| => spell(j.items[i]))) else j
  }

  function SpelledField(j: Json, name: string, spell: Json -> Json): Json {
    if j.Obj? && name in j.fields then Obj(j.fields[name := spell(j.fields[name])]) else j
  }

  function SpelledSelectors(j: Json): Json {
    SpelledItems(j, SpelledSelector)
  }

  function SpelledPartition(j: Json): Json {
    SpelledField(j, "groups", SpelledSelectors)
  }

  function SpelledShaping(j: Json): Json {
    SpelledField(SpelledField(j, "target", SpelledSelector), "between", SpelledSelectors)
  }

  function SpelledPartitions(j: Json): Json {
    SpelledItems(j, SpelledPartition)
  }

  function SpelledRules(j: Json): Json {
    SpelledItems(j, SpelledShaping)
  }

  /** A state with all numbers inside its selectors written as strings. */
  function SpelledState(j: Json): Json {
    SpelledField(SpelledField(j, "partitions", SpelledPartitions), "shaping", SpelledRules)
  }

  lemma ItemsAlike<A>(j: Json, spell: Json -> Json, decode: Json -> Option<A>)
    requires forall x :: decode(spell(x)) == decode(x)
    ensures DecodeList(SpelledItems(j, spell), decode) == DecodeList(j, decode)
  {
    if j.Arr? {
      var items := SpelledItems(j, spell).items;
      DecodeAllIff(j.items, decode);
      DecodeAllIff(items, decode);
      var a, b := DecodeAll(j.items, decode), DecodeAll(items, decode);
      assert forall i :: 0 <= i < |items| ==> decode(items[i]) == decode(j.items[i]);
      if a.Some? {
        assert forall i :: 0 <= i < |items| ==> Some(a.value[i]) == Some(b.value[i]);
        assert a.value == b.value;
      }
    }
  }

  lemma SelectorsAlike(j: Json)
    ensures DecodeList(SpelledSelectors(j), DecodeSelector) == DecodeList(j, DecodeSelector)
  {
    forall x
      ensures DecodeSelector(SpelledSelector(x)) == DecodeSelector(x)
    {
      SpelledSelectorAlike(x);
    }
    ItemsAlike(j, SpelledSelector, DecodeSelector);
  }

  lemma PartitionAlike(j: Json)
    ensures DecodePartition(SpelledPartition(j)) == DecodePartition(j)
  {
    if j.Obj? && "groups" in j.fields {
      var f, g := j.fields, SpelledPartition(j).fields;
      SelectorsAlike(f["groups"]);
      OneChanged(f, "groups", SpelledSelectors(f["groups"]));
      hide DecodeText, DecodeFlag, DecodeList, SpelledSelectors, Get;
      assert Get(g, "groups") == SpelledSelectors(f["groups"]) && Get(f, "groups") == f["groups"];
    }
  }

  /** Setting one field of those that are there changes no other and adds none. */
  lemma OneChanged(f: map<string, Json>, name: string, value: Json)
    requires name in f
    ensures var g := f[name := value];
            && g.Keys == f.Keys
            && Get(g, name) == value && Get(f, name) == f[name]
            && forall other :: other != name ==> Get(g, other) == Get(f, other)
  {
  }

  lemma TargetAlike(j: Json)
    ensures DecodeShaping(SpelledField(j, "target", SpelledSelector)) == DecodeShaping(j)
  {
    if j.Obj? && "target" in j.fields {
      var f := j.fields;
      SpelledSelectorAlike(f["target"]);
      OneChanged(f, "target", SpelledSelector(f["target"]));
      assert DecodeTarget(SpelledSelector(f["target"])) == DecodeTarget(f["target"]);
      hide DecodeText, DecodeTarget, DecodeList, SpelledSelector, Get;
    }
  }

  lemma BetweenAlike(j: Json)
    ensures DecodeShaping(SpelledField(j, "between", SpelledSelectors)) == DecodeShaping(j)
  {
    if j.Obj? && "between" in j.fields {
      var f := j.fields;
      SelectorsAlike(f["between"]);
      OneChanged(f, "between", SpelledSelectors(f["between"]));
      hide DecodeText, DecodeTarget, DecodeList, SpelledSelectors, Get;
    }
  }

  lemma ShapingAlike(j: Json)
    ensures DecodeShaping(SpelledShaping(j)) == DecodeShaping(j)
  {
    hide DecodeShaping, SpelledField;
    TargetAlike(j);
    BetweenAlike(SpelledField(j, "target", SpelledSelector));
  }

  lemma PartitionsFieldAlike(j: Json)
    ensures DecodeState(SpelledField(j, "partitions", SpelledPartitions)) == DecodeState(j)
  {
    if j.Obj? && "partitions" in j.fields {
      forall x
        ensures DecodePartition(SpelledPartition(x)) == DecodePartition(x)
      {
        PartitionAlike(x);
      }
      ItemsAlike(j.fields["partitions"], SpelledPartition, DecodePartition);
      OneChanged(j.fields, "partitions", SpelledPartitions(j.fields["partitions"]));
      hide DecodeList, Get, DecodePartition, DecodeShaping, SpelledPartition, SpelledItems;
    }
  }

  lemma ShapingFieldAlike(j: Json)
    ensures DecodeState(SpelledField(j, "shaping", SpelledRules)) == DecodeState(j)
  {
    if j.Obj? && "shaping" in j.fields {
      forall x
        ensures DecodeShaping(SpelledShaping(x)) == DecodeShaping(x)
      {
        ShapingAlike(x);
      }
      ItemsAlike(j.fields["shaping"], SpelledShaping, DecodeShaping);
      OneChanged(j.fields, "shaping", SpelledRules(j.fields["shaping"]));
      hide DecodeList, Get, DecodePartition, DecodeShaping, SpelledShaping, SpelledItems;
    }
  }

  /** Numbers in the selectors of a state, as in `"participant-index": 3`, decode like the strings of their digits. */
  lemma SpelledStateAlike(j: Json)
    ensures DecodeState(SpelledState(j)) == DecodeState(j)
  {
    hide DecodeState, SpelledField;
    PartitionsFieldAlike(j);
    ShapingFieldAlike(SpelledField(j, "partitions", SpelledPartitions));
  }

  // ---- What is read back ----

  /** A nil value list goes out as null and comes back as one empty string. */
  function RereadValues(vs: Values): Values {
    if vs.None? then Some([""]) else vs
  }

  function RereadSelector(sel: Selector): Selector {
    Selector(sel.all, map k | k in sel.labels :: RereadValues(sel.labels[k]))
  }

  function RereadSelectors(sels: seq<Selector>): seq<Selector> {
    seq(|sels|, i requires 0 <= i < |sels| => RereadSelector(sels[i]))
  }

  function RereadPartition(p: Partition): Partition {
    p.(groups := RereadSelectors(p.groups))
  }

  function RereadShaping(sh: Shaping): Shaping {
    sh.(target := if sh.target.None? then None else Some(RereadSelector(sh.target.value)),
        between := RereadSelectors(sh.between))
  }

  function RereadPartitions(ps: seq<Partition>): seq<Partition> {
    seq(|ps|, i requires 0 <= i < |ps| => RereadPartition(ps[i]))
  }

  function RereadRules(rules: seq<Shaping>): seq<Shaping> {
    seq(|rules|, i requires 0 <= i < |rules| => RereadShaping(rules[i]))
  }

  function Reread(s: State): State {
    State(RereadPartitions(s.partitions), RereadRules(s.shaping))
  }

  lemma SelectorReadBack(sel: Selector)
    requires !EmptySelector(sel) && T.Plain(sel)
    ensures DecodeSelector(EncodeSelector(sel)) == Some(RereadSelector(sel))
  {
    if !sel.all {
      var j := EncodeSelector(sel);
      forall k | k in sel.labels
        ensures DecodeValues(j.fields[k]) == RereadValues(sel.labels[k])
      {
        if sel.labels[k].Some? {
          DecodeStrings(sel.labels[k].value);
        }
      }
      assert j.fields.Keys == sel.labels.Keys;
      assert DecodeSelector(j).value.labels == RereadSelector(sel).labels;
    }
  }

  lemma SelectorsReadBack(sels: seq<Selector>)
    requires T.EncodableSelectors(sels) && forall sel :: sel in sels ==> T.Plain(sel)
    ensures DecodeList(Arr(T.EncodeSelectors(sels)), DecodeSelector) == Some(RereadSelectors(sels))
  {
    hide DecodeSelector, EncodeSelector, RereadSelector;
    var items := T.EncodeSelectors(sels);
    forall i | 0 <= i < |items|
      ensures DecodeSelector(items[i]) == Some(RereadSelector(sels[i]))
    {
      assert sels[i] in sels;
      SelectorReadBack(sels[i]);
    }
    DecodeAllIs(items, DecodeSelector, RereadSelectors(sels));
  }

  lemma TextsReadBack(ss: seq<string>)
    ensures DecodeList(Strings(ss), DecodeText) == Some(ss)
  {
    DecodeAllIs(Strings(ss).items, DecodeText, ss);
  }

  lemma PartitionFields(p: Partition)
    requires T.EncodableSelectors(p.groups)
    ensures var f := T.EncodePartition(p).fields;
            && f.Keys <= PARTITION_FIELDS
            && Get(f, "name") == Str(p.name)
            && Get(f, "groups") == Arr(T.EncodeSelectors(p.groups))
            && Get(f, "scope") == (if p.scope == [] then Null else Strings(p.scope))
            && Get(f, "symmetric") == (if p.symmetric.None? then Null else Bool(p.symmetric.value))
  {
    hide T.EncodeSelectors, Strings;
  }

  lemma PartitionReadBack(p: Partition)
    requires T.EncodableSelectors(p.groups) && forall sel :: sel in p.groups ==> T.Plain(sel)
    ensures DecodePartition(T.EncodePartition(p)) == Some(RereadPartition(p))
  {
    PartitionFields(p);
    SelectorsReadBack(p.groups);
    TextsReadBack(p.scope);
    hide Get, T.EncodeSelectors, Strings, RereadSelectors;
  }

  /** Fields read from the sum of two halves that share none. */
  lemma GetHalves(a: map<string, Json>, b: map<string, Json>, name: string)
    ensures name !in b ==> Get(a + b, name) == Get(a, name)
    ensures name !in a ==> Get(a + b, name) == Get(b, name)
  {
  }

  lemma ShapingReadBack(sh: Shaping)
    requires T.EncodableShaping(sh) && (sh.target.Some? ==> T.Plain(sh.target.value))
    requires forall sel :: sel in sh.between ==> T.Plain(sel)
    ensures DecodeShaping(T.EncodeShaping(sh)) == Some(RereadShaping(sh))
  {
    HeadReadBack(sh);
    ParamsReadBack(sh);
    ShapingFields(sh);
    hide T.ShapingHead, T.ShapingParams, DecodeList, DecodeText, DecodeTarget, DecodeSelector, Get;
    hide T.EncodableShaping, T.Plain;
    hide RereadSelectors, RereadSelector;
  }

  /** The fields of a shaping rule are those of its two halves, which share none. */
  lemma ShapingFields(sh: Shaping)
    requires T.EncodableShaping(sh)
    ensures var f := T.EncodeShaping(sh).fields;
            && f.Keys <= HEAD_FIELDS + PARAM_FIELDS
            && (forall name :: name in HEAD_FIELDS ==> Get(f, name) == Get(T.ShapingHead(sh), name))
            && (forall name :: name in PARAM_FIELDS ==> Get(f, name) == Get(T.ShapingParams(sh), name))
  {
    var head, params := T.ShapingHead(sh), T.ShapingParams(sh);
    T.HeadFields(sh);
    T.ParamFields(sh);
    assert HEAD_FIELDS !! PARAM_FIELDS;
    hide T.ShapingHead, T.ShapingParams, T.FieldIs, HEAD_FIELDS, PARAM_FIELDS;
    forall name
      ensures name in HEAD_FIELDS ==> Get(head + params, name) == Get(head, name)
      ensures name in PARAM_FIELDS ==> Get(head + params, name) == Get(params, name)
    {
      GetHalves(head, params, name);
    }
  }

  lemma HeadReadBack(sh: Shaping)
    requires T.EncodableShaping(sh) && (sh.target.Some? ==> T.Plain(sh.target.value))
    requires forall sel :: sel in sh.between ==> T.Plain(sel)
    ensures var f := T.ShapingHead(sh);
            && DecodeText(Get(f, "name")) == Some(sh.name)
            && DecodeTarget(Get(f, "target")) == Some(RereadShaping(sh).target)
            && DecodeList(Get(f, "between"), DecodeSelector) == Some(RereadShaping(sh).between)
            && DecodeList(Get(f, "scope"), DecodeText) == Some(sh.scope)
  {
    T.HeadFields(sh);
    hide T.ShapingHead;
    if sh.target.Some? {
      SelectorReadBack(sh.target.value);
      assert !EncodeSelector(sh.target.value).Null?;
    }
    SelectorsReadBack(sh.between);
    TextsReadBack(sh.scope);
    hide T.EncodeSelectors, Strings, RereadSelector, DecodeSelector, EncodeSelector;
    assert sh.between == [] ==> RereadSelectors(sh.between) == [];
  }

  lemma ParamsReadBack(sh: Shaping)
    ensures var f := T.ShapingParams(sh);
            && DecodeText(Get(f, "direction")) == Some(sh.direction)
            && DecodeText(Get(f, "delay")) == Some(sh.delay)
            && DecodeText(Get(f, "jitter")) == Some(sh.jitter)
            && DecodeText(Get(f, "loss")) == Some(sh.loss)
            && DecodeText(Get(f, "bandwidth")) == Some(sh.bandwidth)
  {
    T.ParamFields(sh);
    hide T.ShapingParams;
  }

  lemma StateFields(s: State)
    requires T.Encodable(s)
    ensures T.Encode(s).Obj?
    ensures var f := T.Encode(s).fields;
            && f.Keys <= STATE_FIELDS
            && (s.partitions == [] ==> Get(f, "partitions") == Null)
            && (s.partitions != [] ==>
                  && Get(f, "partitions").Arr? && |Get(f, "partitions").items| == |s.partitions|
                  && forall i :: 0 <= i < |s.partitions| ==>
                                   Get(f, "partitions").items[i] == T.EncodePartition(s.partitions[i]))
            && (s.shaping == [] ==> Get(f, "shaping") == Null)
            && (s.shaping != [] ==>
                  && Get(f, "shaping").Arr? && |Get(f, "shaping").items| == |s.shaping|
                  && forall i :: 0 <= i < |s.shaping| ==> Get(f, "shaping").items[i] == T.EncodeShaping(s.shaping[i]))
  {
    hide T.EncodePartition, T.EncodeShaping;
  }

  lemma PartitionsReadBack(j: Json, ps: seq<Partition>)
    requires forall p :: p in ps ==> T.EncodableSelectors(p.groups) && forall sel :: sel in p.groups ==> T.Plain(sel)
    requires j.Arr? && |j.items| == |ps|
    requires forall i :: 0 <= i < |ps| ==> ps[i] in ps && j.items[i] == T.EncodePartition(ps[i])
    ensures DecodeList(j, DecodePartition) == Some(RereadPartitions(ps))
  {
    hide T.EncodePartition, RereadPartition, DecodePartition, T.EncodableSelectors, T.Plain;
    var back := RereadPartitions(ps);
    forall i | 0 <= i < |ps|
      ensures DecodePartition(j.items[i]) == Some(back[i])
    {
      PartitionReadBack(ps[i]);
    }
    DecodeAllIs(j.items, DecodePartition, back);
  }

  lemma RulesReadBack(j: Json, rules: seq<Shaping>)
    requires forall sh :: sh in rules ==> T.EncodableShaping(sh) && PlainShaping(sh)
    requires j.Arr? && |j.items| == |rules|
    requires forall i :: 0 <= i < |rules| ==> rules[i] in rules && j.items[i] == T.EncodeShaping(rules[i])
    ensures DecodeList(j, DecodeShaping) == Some(RereadRules(rules))
  {
    hide T.EncodeShaping, RereadShaping, DecodeShaping, T.EncodableShaping, T.Plain;
    var back := RereadRules(rules);
    forall i | 0 <= i < |rules|
      ensures DecodeShaping(j.items[i]) == Some(back[i])
    {
      ShapingReadBack(rules[i]);
    }
    DecodeAllIs(j.items, DecodeShaping, back);
  }

  ghost predicate PlainShaping(sh: Shaping) {
    (sh.target.Some? ==> T.Plain(sh.target.value)) && forall sel :: sel in sh.between ==> T.Plain(sel)
  }

  lemma PartitionsBack(s: State)
    requires T.Encodable(s) && T.PlainState(s)
    ensures DecodeList(Get(T.Encode(s).fields, "partitions"), DecodePartition) == Some(Reread(s).partitions)
  {
    StateFields(s);
    hide T.Encode, T.EncodePartition, RereadPartition, DecodePartition, T.EncodableShaping, T.EncodableSelectors;
    hide T.Plain;
    if s.partitions == [] {
      assert Reread(s).partitions == [];
    } else {
      PartitionsReadBack(Get(T.Encode(s).fields, "partitions"), s.partitions);
    }
  }

  lemma ShapingBack(s: State)
    requires T.Encodable(s) && T.PlainState(s)
    ensures DecodeList(Get(T.Encode(s).fields, "shaping"), DecodeShaping) == Some(Reread(s).shaping)
  {
    StateFields(s);
    hide T.Encode, T.EncodeShaping, RereadShaping, DecodeShaping, T.EncodableShaping, T.EncodableSelectors, T.Plain;
    if s.shaping == [] {
      assert Reread(s).shaping == [];
    } else {
      RulesReadBack(Get(T.Encode(s).fields, "shaping"), s.shaping);
    }
  }

  /** What a state becomes when its wire form is read back: itself, but for its nil value lists. */
  lemma ReadBack(s: State)
    requires T.Encodable(s) && T.PlainState(s)
    ensures DecodeState(T.Encode(s)) == Some(Reread(s))
  {
    StateFields(s);
    PartitionsBack(s);
    ShapingBack(s);
    hide *;
    DecodeParts(T.Encode(s), Reread(s));
  }

  lemma DecodeParts(j: Json, s: State)
    requires j.Obj? && j.fields.Keys <= STATE_FIELDS
    requires DecodeList(Get(j.fields, "partitions"), DecodePartition) == Some(s.partitions)
    requires DecodeList(Get(j.fields, "shaping"), DecodeShaping) == Some(s.shaping)
    ensures DecodeState(j) == Some(s)
  {
    hide Get, DecodeList;
  }

  // ---- Written back, and stored ----

  ghost predicate NoNil(sel: Selector) {
    forall k :: k in sel.labels ==> sel.labels[k].Some?
  }

  ghost predicate NoNilShaping(sh: Shaping) {
    (sh.target.Some? ==> NoNil(sh.target.value)) && forall sel :: sel in sh.between ==> NoNil(sel)
  }

  /** No selector has an empty value list; in a stored state empty lists are nil. */
  ghost predicate NoNilValues(s: State) {
    && (forall p, sel :: p in s.partitions && sel in p.groups ==> NoNil(sel))
    && (forall sh :: sh in s.shaping ==> NoNilShaping(sh))
  }

  lemma SelectorStoredIff(sel: Selector)
    requires CloneSelector(sel) == sel
    ensures CloneSelector(RereadSelector(sel)) == sel <==> NoNil(sel)
  {
    var again := CloneSelector(RereadSelector(sel));
    assert again.labels.Keys == sel.labels.Keys;
    forall k | k in sel.labels
      ensures again.labels[k] == sel.labels[k] <==> sel.labels[k].Some?
    {
      assert CloneSelector(sel).labels[k] == CloneValues(sel.labels[k]);
    }
    if NoNil(sel) {
      assert again.labels == sel.labels;
    }
  }

  lemma SelectorsStoredIff(sels: seq<Selector>)
    requires CloneSelectors(sels) == sels
    ensures CloneSelectors(RereadSelectors(sels)) == sels <==> forall sel :: sel in sels ==> NoNil(sel)
  {
    hide CloneSelector, RereadSelector, NoNil;
    var again := CloneSelectors(RereadSelectors(sels));
    forall i | 0 <= i < |sels|
      ensures again[i] == sels[i] <==> NoNil(sels[i])
    {
      assert sels[i] == CloneSelectors(sels)[i];
      SelectorStoredIff(sels[i]);
    }
    if again == sels {
      forall sel | sel in sels
        ensures NoNil(sel)
      {
        var i :| 0 <= i < |sels| && sels[i] == sel;
      }
    }
  }

  lemma PartitionStoredIff(p: Partition)
    requires ClonePartition(p) == p
    ensures ClonePartition(RereadPartition(p)) == p <==> forall sel :: sel in p.groups ==> NoNil(sel)
  {
    hide CloneSelectors, RereadSelectors, NoNil;
    SelectorsStoredIff(p.groups);
  }

  lemma ShapingStoredIff(sh: Shaping)
    requires CloneShaping(sh) == sh
    ensures CloneShaping(RereadShaping(sh)) == sh <==> NoNilShaping(sh)
  {
    hide CloneSelectors, CloneSelector, RereadSelectors, RereadSelector, NoNil;
    SelectorsStoredIff(sh.between);
    if sh.target.Some? {
      SelectorStoredIff(sh.target.value);
    }
  }

  /**
   * A stored state that is read and written back unchanged is stored as it was exactly when none of its value lists is
   * empty.
   */
  lemma StoredIff(s: State)
    requires Clone(s) == s
    ensures Clone(Reread(s)) == s <==> NoNilValues(s)
  {
    hide ClonePartition, CloneShaping, RereadPartition, RereadShaping, NoNil, NoNilShaping;
    var again := Clone(Reread(s));
    forall i | 0 <= i < |s.partitions|
      ensures again.partitions[i] == s.partitions[i] <==> forall sel :: sel in s.partitions[i].groups ==> NoNil(sel)
    {
      assert Clone(s).partitions[i] == s.partitions[i];
      PartitionStoredIff(s.partitions[i]);
    }
    forall i | 0 <= i < |s.shaping|
      ensures again.shaping[i] == s.shaping[i] <==> NoNilShaping(s.shaping[i])
    {
      assert Clone(s).shaping[i] == s.shaping[i];
      ShapingStoredIff(s.shaping[i]);
    }
    if again == s {
      forall p, sel | p in s.partitions && sel in p.groups
        ensures NoNil(sel)
      {
        var i :| 0 <= i < |s.partitions| && s.partitions[i] == p;
      }
      forall sh | sh in s.shaping
        ensures NoNilShaping(sh)
      {
        var i :| 0 <= i < |s.shaping| && s.shaping[i] == sh;
      }
    }
    if NoNilValues(s) {
      assert forall i :: 0 <= i < |s.partitions| ==> s.partitions[i] in s.partitions;
      assert forall i :: 0 <= i < |s.shaping| ==> s.shaping[i] in s.shaping;
      assert again.partitions == s.partitions;
      assert again.shaping == s.shaping;
    }
  }
}
