/** JSON trees, and the wire form of states and selectors (internal/state/state.go). */
module Json {
  import opened Wrappers
  import opened State

  datatype Json =
    | Null
    | Bool(b: bool)
    | Num(text: string)
    | Str(s: string)
    | Arr(items: seq<Json>)
    | Obj(fields: map<string, Json>)

  // ---- Encoding ----

  function Strings(ss: seq<string>): Json {
    Arr(seq(|ss|, i requires 0 <= i < |ss| => Str(ss[i])))
  }

  function EncodeValues(vs: Values): Json {
    if vs.None? then Null else Strings(vs.value)
  }

  /** MarshalJSON of a selector that is not empty; an empty one is an error. */
  function EncodeSelector(sel: Selector): Json
    requires !EmptySelector(sel)
  {
    if sel.all then Str("all") else Obj(map k | k in sel.labels :: EncodeValues(sel.labels[k]))
  }

  // ---- Decoding ----

  /** decodeSelectorValues: null decodes like the empty string, and nested arrays are flattened. */
  function DecodeValues(j: Json): Option<seq<string>>
    decreases j
  {
    match j
    case Null => Some([""])
    case Str(s) => Some([s])
    case Num(text) => Some([text])
    case Arr(items) => DecodeItems(items)
    case Bool(_) => None
    case Obj(_) => None
  }

  function DecodeItems(items: seq<Json>): Option<seq<string>>
    decreases items
  {
    if items == [] then Some([])
    else
      var first := DecodeValues(items[0]);
      var rest := DecodeItems(items[1..]);
      if first.None? || rest.None? then None else Some(first.value + rest.value)
  }

  /** decodeSelectorValues as the source runs it: recursive, with an accumulator over array items. */
  method DecodeSelectorValues(j: Json) returns (r: Option<seq<string>>)
    ensures r == DecodeValues(j)
    decreases j
  {
    match j
    case Null => r := Some([""]);
    case Str(s) => r := Some([s]);
    case Num(text) => r := Some([text]);
    case Bool(_) => r := None;
    case Obj(_) => r := None;
    case Arr(items) =>
      var out: seq<string> := [];
      assert items[0..] == items;
      for i := 0 to |items|
        invariant Continues(DecodeItems(items), out, DecodeItems(items[i..]))
      {
        DecodeItemsStep(items, i, out);
        var vals := DecodeSelectorValues(items[i]);
        if vals.None? {
          return None;
        }
        out := out + vals.value;
      }
      assert out + [] == out;
      r := Some(out);
  }

  /** `whole` is `out` followed by `rest`, or both fail. */
  ghost predicate Continues(whole: Option<seq<string>>, out: seq<string>, rest: Option<seq<string>>) {
    if rest.None? then whole.None? else whole.Some? && whole.value == out + rest.value
  }

  lemma DecodeItemsStep(items: seq<Json>, i: nat, out: seq<string>)
    requires i < |items|
    ensures var first, rest, later := DecodeValues(items[i]), DecodeItems(items[i..]), DecodeItems(items[i + 1..]);
            if first.None? || later.None? then rest.None?
            else rest.Some? && out + rest.value == out + first.value + later.value
  {
  }

  /** UnmarshalJSON of a selector: the string "all", or an object with at least one label. */
  function DecodeSelector(j: Json): Option<Selector> {
    match j
    case Str(s) => if s == "all" then Some(Selector(true, map[])) else None
    case Obj(fields) =>
      if fields == map[] then None
      else if exists k :: k in fields && DecodeValues(fields[k]).None? then None
      else Some(Selector(false, map k | k in fields :: DecodeValues(fields[k])))
    case _ => None
  }

  // ---- What decodes, and to what ----

  /** `x` is `j` itself or stands somewhere inside its nested arrays. */
  ghost predicate Occurs(x: Json, j: Json)
    decreases j
  {
    x == j || (j.Arr? && exists i :: 0 <= i < |j.items| && Occurs(x, j.items[i]))
  }

  ghost predicate Rejected(x: Json) {
    x.Bool? || x.Obj?
  }

  /** A selector value decodes exactly when no boolean and no object occurs in it, at any depth. */
  lemma {:induction false} DecodeValuesIff(j: Json)
    ensures DecodeValues(j).None? <==> exists x :: Occurs(x, j) && Rejected(x)
    decreases j, 0
  {
    if j.Arr? {
      DecodeItemsIff(j.items);
      if x :| Occurs(x, j) && Rejected(x) {
        var i :| 0 <= i < |j.items| && Occurs(x, j.items[i]);
        DecodeValuesIff(j.items[i]);
      }
      if DecodeValues(j).None? {
        var i :| 0 <= i < |j.items| && DecodeValues(j.items[i]).None?;
        DecodeValuesIff(j.items[i]);
        var x :| Occurs(x, j.items[i]) && Rejected(x);
        assert Occurs(x, j);
      }
    } else {
      assert Occurs(j, j);
    }
  }

  lemma {:induction false} DecodeItemsIff(items: seq<Json>)
    ensures DecodeItems(items).None? <==> exists i :: 0 <= i < |items| && DecodeValues(items[i]).None?
  {
    if items == [] {
    } else {
      DecodeItemsIff(items[1..]);
      assert forall i :: 0 < i < |items| ==> items[i] == items[1..][i - 1];
    }
  }

  lemma {:induction false} DecodeItemsConcat(xs: seq<Json>, ys: seq<Json>)
    requires DecodeItems(xs).Some? && DecodeItems(ys).Some?
    ensures DecodeItems(xs + ys) == Some(DecodeItems(xs).value + DecodeItems(ys).value)
  {
    if xs == [] {
      assert xs + ys == ys;
      assert [] + DecodeItems(ys).value == DecodeItems(ys).value;
    } else {
      assert (xs + ys)[1..] == xs[1..] + ys && (xs + ys)[0] == xs[0];
      DecodeItemsConcat(xs[1..], ys);
      var first, rest, last := DecodeValues(xs[0]).value, DecodeItems(xs[1..]).value, DecodeItems(ys).value;
      assert first + (rest + last) == first + rest + last;
    }
  }

  /** Arrays decode left to right: the order of the leaves is kept, and where arrays nest makes no difference. */
  lemma DecodeConcat(xs: seq<Json>, ys: seq<Json>)
    requires DecodeItems(xs).Some? && DecodeItems(ys).Some?
    ensures DecodeValues(Arr(xs + ys)) == Some(DecodeItems(xs).value + DecodeItems(ys).value)
    ensures DecodeValues(Arr([Arr(xs)] + ys)) == DecodeValues(Arr(xs + ys))
  {
    DecodeItemsConcat(xs, ys);
    assert ([Arr(xs)] + ys)[1..] == ys && ([Arr(xs)] + ys)[0] == Arr(xs);
    assert DecodeValues(Arr(xs)) == DecodeItems(xs);
    assert DecodeItems([Arr(xs)] + ys) == Some(DecodeItems(xs).value + DecodeItems(ys).value);
  }

  // ---- Leaves, and the spelling of numbers ----

  /** What stands inside the nested arrays of j, from left to right; j itself if it is no array. */
  ghost function Leaves(j: Json): seq<Json>
    decreases j
  {
    if j.Arr? then AllLeaves(j.items) else [j]
  }

  ghost function AllLeaves(items: seq<Json>): seq<Json>
    decreases items
  {
    if items == [] then [] else Leaves(items[0]) + AllLeaves(items[1..])
  }

  /** `values` are what the leaves say: the text of a string or of a number as it is spelled, nothing for null. */
  ghost predicate Says(leaves: seq<Json>, values: seq<string>) {
    && |values| == |leaves|
    && forall i :: 0 <= i < |leaves| ==>
                     leaves[i] in [Str(values[i]), Num(values[i])] || (leaves[i] == Null && values[i] == "")
  }

  lemma SaysConcat(xs: seq<Json>, vs: seq<string>, ys: seq<Json>, ws: seq<string>)
    requires Says(xs, vs) && Says(ys, ws)
    ensures Says(xs + ys, vs + ws)
  {
  }

  /** A selector value that decodes has one entry per leaf, in order: what that leaf says. */
  lemma {:induction false} DecodedLeaves(j: Json)
    requires DecodeValues(j).Some?
    ensures Says(Leaves(j), DecodeValues(j).value)
    decreases j, 0
  {
    if j.Arr? {
      DecodedItems(j.items);
    }
  }

  lemma {:induction false} DecodedItems(items: seq<Json>)
    requires DecodeItems(items).Some?
    ensures Says(AllLeaves(items), DecodeItems(items).value)
    decreases items
  {
    if items == [] {
    } else {
      DecodedLeaves(items[0]);
      DecodedItems(items[1..]);
      SaysConcat(Leaves(items[0]), DecodeValues(items[0]).value, AllLeaves(items[1..]), DecodeItems(items[1..]).value);
    }
  }

  /** The same value with each number written as the string of its digits, at any depth of nested arrays. */
  function Spelled(j: Json): Json
    decreases j
  {
    match j
    case Num(text) => Str(text)
    case Arr(items) => Arr(SpelledAll(items))
    case _ => j
  }

  function SpelledAll(items: seq<Json>): (out: seq<Json>)
    decreases items
  {
    if items == [] then [] else [Spelled(items[0])] + SpelledAll(items[1..])
  }

  /** Whether a number is sent as a number or as a string makes no difference to what it decodes to. */
  lemma {:induction false} SpelledAlike(j: Json)
    ensures DecodeValues(Spelled(j)) == DecodeValues(j)
    decreases j, 0
  {
    if j.Arr? {
      SpelledItemsAlike(j.items);
    }
  }

  lemma {:induction false} SpelledItemsAlike(items: seq<Json>)
    ensures DecodeItems(SpelledAll(items)) == DecodeItems(items)
    decreases items
  {
    if items == [] {
    } else {
      SpelledAlike(items[0]);
      SpelledItemsAlike(items[1..]);
    }
  }

  function SpelledSelector(j: Json): Json {
    if j.Obj? then Obj(map k | k in j.fields :: Spelled(j.fields[k])) else j
  }

  lemma SpelledSelectorAlike(j: Json)
    ensures DecodeSelector(SpelledSelector(j)) == DecodeSelector(j)
  {
    if j.Obj? {
      var fields := SpelledSelector(j).fields;
      assert fields.Keys == j.fields.Keys;
      forall k | k in j.fields
        ensures DecodeValues(fields[k]) == DecodeValues(j.fields[k])
      {
        SpelledAlike(j.fields[k]);
      }
      hide DecodeValues, Spelled;
      assert fields == map[] <==> j.fields == map[];
      if j.fields != map[] && forall k :: k in j.fields ==> DecodeValues(j.fields[k]).Some? {
        assert (map k | k in fields :: DecodeValues(fields[k])) == (map k | k in j.fields :: DecodeValues(j.fields[k]));
      }
    }
  }

  /** No boolean and no object stands anywhere in it. */
  ghost predicate OnlyLeaves(j: Json) {
    forall x :: Occurs(x, j) ==> !x.Bool? && !x.Obj?
  }

  lemma ValueIff(j: Json)
    ensures DecodeValues(j).Some? <==> OnlyLeaves(j)
    ensures DecodeValues(j).Some? ==> Says(Leaves(j), DecodeValues(j).value)
  {
    DecodeValuesIff(j);
    if DecodeValues(j).Some? {
      DecodedLeaves(j);
      forall x | Occurs(x, j)
        ensures !Rejected(x)
      {
      }
    }
  }

  /**
   * What decodes as a selector, and to what: the string "all" to everything, an object with a key or more to its
   * labels, each with what the leaves of its value say, where these are strings, numbers and nulls.
   */
  lemma DecodeSelectorIff(j: Json)
    ensures DecodeSelector(j).Some?
       <==> || j == Str("all")
            || (j.Obj? && |j.fields| > 0 && forall k :: k in j.fields ==> OnlyLeaves(j.fields[k]))
    ensures DecodeSelector(j).Some? ==>
              var sel := DecodeSelector(j).value;
              && (sel.all <==> j == Str("all"))
              && (sel.all ==> sel.labels == map[])
              && (j.Obj? ==> sel.labels.Keys == j.fields.Keys && forall k :: k in j.fields ==>
                    sel.labels[k].Some? && Says(Leaves(j.fields[k]), sel.labels[k].value))
  {
    hide DecodeValues, OnlyLeaves, Says, Leaves;
    if j.Obj? {
      assert j.fields == map[] <==> |j.fields| == 0;
      forall k | k in j.fields
        ensures DecodeValues(j.fields[k]).Some? <==> OnlyLeaves(j.fields[k])
        ensures DecodeValues(j.fields[k]).Some? ==> Says(Leaves(j.fields[k]), DecodeValues(j.fields[k]).value)
      {
        ValueIff(j.fields[k]);
      }
    }
  }

  // ---- Round trips ----

  lemma {:induction false} DecodeStrings(ss: seq<string>)
    ensures DecodeItems(Strings(ss).items) == Some(ss)
  {
    if ss == [] {
    } else {
      DecodeStrings(ss[1..]);
      var items := Strings(ss).items;
      assert items[1..] == Strings(ss[1..]).items;
      assert DecodeValues(items[0]) == Some([ss[0]]);
      assert ss == [ss[0]] + ss[1..];
    }
  }

  /** The shape every decoded selector has: either "all" without labels, or labels without nil value lists. */
  predicate Decoded(sel: Selector) {
    if sel.all then sel.labels == map[] else sel.labels != map[] && forall k :: k in sel.labels ==> sel.labels[k].Some?
  }

  /** Decoding undoes encoding exactly on selectors of decoded shape. */
  lemma RoundTripIff(sel: Selector)
    requires !EmptySelector(sel)
    ensures DecodeSelector(EncodeSelector(sel)) == Some(sel) <==> Decoded(sel)
  {
    if !sel.all {
      var j := EncodeSelector(sel);
      forall k | k in sel.labels
        ensures DecodeValues(j.fields[k]) == Some(if sel.labels[k].None? then [""] else sel.labels[k].value)
      {
        if sel.labels[k].Some? {
          DecodeStrings(sel.labels[k].value);
        }
      }
      assert j.fields.Keys == sel.labels.Keys;
      var back := DecodeSelector(j);
      assert back.Some? && back.value.labels.Keys == sel.labels.Keys;
      if Decoded(sel) {
        assert back.value.labels == sel.labels;
      }
    }
  }

  /** Whatever decodes re-encodes, and decodes to itself again: the wire form is canonical after one pass. */
  lemma DecodeIsStable(j: Json)
    requires DecodeSelector(j).Some?
    ensures var sel := DecodeSelector(j).value;
            Decoded(sel) && DecodeSelector(EncodeSelector(sel)) == Some(sel)
  {
    var sel := DecodeSelector(j).value;
    if j.Obj? {
      assert sel.labels.Keys == j.fields.Keys;
    }
    RoundTripIff(sel);
  }

  /**
   * A decoded selector that is stored and read back (the API stores a copy) decodes to itself exactly when
   * none of its value lists is empty: an empty list comes back as null, which decodes as one empty string.
   */
  lemma ReadBackIff(sel: Selector)
    requires Decoded(sel)
    ensures !EmptySelector(CloneSelector(sel))
    ensures DecodeSelector(EncodeSelector(CloneSelector(sel))) == Some(sel)
       <==> forall k :: k in sel.labels ==> sel.labels[k] != Some([])
  {
    var copy := CloneSelector(sel);
    assert copy.labels.Keys == sel.labels.Keys;
    if forall k :: k in sel.labels ==> sel.labels[k] != Some([]) {
      assert copy.labels == sel.labels;
      RoundTripIff(sel);
    } else {
      var k :| k in sel.labels && sel.labels[k] == Some([]);
      var j := EncodeSelector(copy);
      assert j.fields[k] == Null;
    }
  }
}
