/** Kurtosis's port catalog, "name:port/proto[/subproto],..." (internal/discovery/discovery.go). */
module PortCatalog {
  import opened Wrappers
  import opened Discovery
  import opened Text
  import opened Decimals

  // ---- The parser ----

  /** strings.IndexByte, with |s| for "not found". */
  function IndexOf(s: string, c: char): (i: nat)
    ensures i <= |s|
    ensures c !in s[..i]
    ensures i < |s| ==> s[i] == c
    ensures i == |s| <==> c !in s
  {
    if s == "" || s[0] == c then 0
    else
      var i := 1 + IndexOf(s[1..], c);
      assert s[..i] == [s[0]] + s[1..][..i - 1];
      assert s == [s[0]] + s[1..];
      i
  }

  /** strings.SplitN(s, "/", n) */
  function SplitN(s: string, sep: char, n: nat): (parts: seq<string>)
    requires n >= 1
    ensures 1 <= |parts| <= n
  {
    var i := IndexOf(s, sep);
    if n == 1 || i == |s| then [s] else [s[..i]] + SplitN(s[i + 1..], sep, n - 1)
  }

  function UpperChar(c: char): char {
    if 'a' <= c <= 'z' then c - 'a' + 'A' else c
  }

  /** strings.ToUpper */
  function ToUpper(s: string): (u: string)
    ensures |u| == |s|
  {
    seq(|s|, i requires 0 <= i < |s| => UpperChar(s[i]))
  }

  function ParseProtocol(s: string): Option<Protocol> {
    if ToUpper(s) == "TCP" then Some(TCP) else if ToUpper(s) == "UDP" then Some(UDP) else None
  }

  /** One trimmed, non-empty entry. */
  function ParseEntry(raw: string): Option<Port> {
    var colon := IndexOf(raw, ':');
    if colon == |raw| then None
    else
      var parts := SplitN(raw[colon + 1..], '/', 3);
      if |parts| < 2 then None
      else
        var number := PortNumber(parts[0]);
        var protocol := ParseProtocol(parts[1]);
        if number.None? || protocol.None? then None else Some(Port(raw[..colon], number.value, protocol.value))
  }

  /** The ports of a list of entries; blank entries are skipped, and one bad entry spoils the list. */
  function ParseEntries(entries: seq<string>): Option<seq<Port>> {
    if entries == [] then Some([])
    else
      var raw := TrimSpace(entries[0]);
      var rest := ParseEntries(entries[1..]);
      if raw == "" then rest
      else
        var first := ParseEntry(raw);
        if first.None? || rest.None? then None else Some([first.value] + rest.value)
  }

  function Parse(catalog: string): Option<seq<Port>> {
    ParseEntries(Split(catalog, ','))
  }

  method ParsePorts(catalog: string) returns (r: Option<seq<Port>>)
    ensures r == Parse(catalog)
  {
    if catalog == "" {
      assert Split(catalog, ',') == [""] && TrimSpace("") == "";
      return Some([]);
    }
    hide ParseEntries, TrimSpace, SplitN, IndexOf, PortNumber, ToUpper, Continues;
    var entries := Split(catalog, ',');
    var out: seq<Port> := [];
    ghost var goal := ParseEntries(entries);
    NothingParsed(entries);
    for i := 0 to |entries|
      invariant Continues(goal, out, ParseEntries(entries[i..]))
    {
      var raw := TrimSpace(entries[i]);
      ParseEntriesStep(goal, out, entries, i);
      if raw == "" {
        continue;
      }
      var colon := IndexOf(raw, ':');
      if colon == |raw| {
        return None;
      }
      var name := raw[..colon];
      var parts := SplitN(raw[colon + 1..], '/', 3);
      if |parts| < 2 {
        return None;
      }
      var number := ParsePortNumber(parts[0]);
      if number.None? {
        return None;
      }
      var upper := ToUpper(parts[1]);
      if upper != "TCP" && upper != "UDP" {
        return None;
      }
      var port := Port(name, number.value, if upper == "TCP" then TCP else UDP);
      assert ParseEntry(raw) == Some(port);
      out := out + [port];
    }
    AllParsed(goal, out, entries);
    r := Some(out);
  }

  /** `whole` is `out` followed by `rest`, or both fail. */
  ghost predicate Continues(whole: Option<seq<Port>>, out: seq<Port>, rest: Option<seq<Port>>) {
    if rest.None? then whole.None? else whole.Some? && whole.value == out + rest.value
  }

  lemma NothingParsed(entries: seq<string>)
    ensures Continues(ParseEntries(entries), [], ParseEntries(entries[0..]))
  {
  }

  lemma ParseEntriesStep(goal: Option<seq<Port>>, out: seq<Port>, entries: seq<string>, i: nat)
    requires i < |entries| && Continues(goal, out, ParseEntries(entries[i..]))
    ensures var raw, rest := TrimSpace(entries[i]), ParseEntries(entries[i + 1..]);
            if raw == "" then Continues(goal, out, rest)
            else if ParseEntry(raw).None? then goal.None?
            else Continues(goal, out + [ParseEntry(raw).value], rest)
  {
    hide TrimSpace, ParseEntry;
    assert entries[i..][0] == entries[i] && entries[i..][1..] == entries[i + 1..];
  }

  lemma AllParsed(goal: Option<seq<Port>>, out: seq<Port>, entries: seq<string>)
    requires Continues(goal, out, ParseEntries(entries[|entries|..]))
    ensures goal == Some(out)
  {
    assert out + [] == out;
  }

  // ---- The printer, and the round trips ----

  /** A catalog entry as Kurtosis writes it: a port and, perhaps, an application protocol. */
  datatype Entry = Entry(port: Port, sub: Option<string>)

  function ProtocolName(p: Protocol): string {
    if p.TCP? then "TCP" else "UDP"
  }

  function Head(p: Port): string {
    p.name + ":" + Decimal(p.number) + "/" + ProtocolName(p.protocol)
  }

  function PrintEntry(e: Entry): string {
    if e.sub.None? then Head(e.port) else Head(e.port) + "/" + e.sub.value
  }

  function PrintEntries(es: seq<Entry>): seq<string> {
    seq(|es|, i requires 0 <= i < |es| => PrintEntry(es[i]))
  }

  function Print(es: seq<Entry>): string {
    Join(PrintEntries(es), ',')
  }

  /** What a port can look like in a catalog. */
  predicate Printable(p: Port) {
    && ',' !in p.name && ':' !in p.name
    && (p.name != "" ==> !IsSpace(p.name[0]))
    && 1 <= p.number <= MAX_PORT
  }

  predicate PrintableEntry(e: Entry) {
    Printable(e.port) && (e.sub.Some? ==> ',' !in e.sub.value)
  }

  function PortsOf(es: seq<Entry>): seq<Port> {
    seq(|es|, i requires 0 <= i < |es| => es[i].port)
  }

  lemma {:induction false} IndexUnique(s: string, c: char, i: nat)
    requires i < |s| && s[i] == c && c !in s[..i]
    ensures IndexOf(s, c) == i
  {
  }

  lemma IndexOfAt(s: string, c: char, tail: string)
    requires c !in s
    ensures var whole := s + [c] + tail;
            IndexOf(whole, c) == |s| && whole[..|s|] == s && whole[|s| + 1..] == tail
  {
    var whole := s + [c] + tail;
    assert whole[..|s|] == s && whole[|s| + 1..] == tail;
    IndexUnique(whole, c, |s|);
  }

  /** Spaces after a solid character are all that TrimRight can take away. */
  lemma {:induction false} TrimRightSolid(s: string, tail: string)
    requires s != "" && !IsSpace(s[|s| - 1])
    ensures TrimRight(s + tail) == s + TrimRight(tail)
    decreases |tail|
  {
    if tail == "" {
      assert s + tail == s;
    } else if IsSpace(tail[|tail| - 1]) {
      assert (s + tail)[..|s + tail| - 1] == s + tail[..|tail| - 1];
      TrimRightSolid(s, tail[..|tail| - 1]);
    }
  }

  lemma DecimalPlain(n: nat)
    ensures AllDigits(Decimal(n))
  {
    DecimalValue(n);
  }

  /** Splitting "number/proto" or "number/proto/sub" finds number and proto in front. */
  lemma SplitHead(digits: string, proto: string, sub: Option<string>)
    requires '/' !in digits && '/' !in proto
    ensures var after := if sub.None? then proto else proto + ['/'] + sub.value;
            var parts := SplitN(digits + ['/'] + after, '/', 3);
            |parts| >= 2 && parts[0] == digits && parts[1] == proto
  {
    var after := if sub.None? then proto else proto + ['/'] + sub.value;
    IndexOfAt(digits, '/', after);
    hide IndexOf;
    var parts := SplitN(digits + ['/'] + after, '/', 3);
    assert parts == [digits] + SplitN(after, '/', 2);
    if sub.Some? {
      IndexOfAt(proto, '/', sub.value);
    }
  }

  lemma ProtocolRoundTrip(p: Protocol)
    ensures ParseProtocol(ProtocolName(p)) == Some(p) && '/' !in ProtocolName(p)
  {
    var name := ProtocolName(p);
    assert name == if p.TCP? then ['T', 'C', 'P'] else ['U', 'D', 'P'];
    assert ToUpper(name) == name;
    assert "TCP"[0] == 'T' && "UDP"[0] == 'U';
  }

  /** An entry parses to its port, with or without anything after a further slash. */
  lemma ParseHead(p: Port, sub: Option<string>)
    requires Printable(p)
    ensures ParseEntry(PrintEntry(Entry(p, sub))) == Some(p)
  {
    var raw := PrintEntry(Entry(p, sub));
    var digits, proto := Decimal(p.number), ProtocolName(p.protocol);
    var after := if sub.None? then proto else proto + ['/'] + sub.value;
    DecimalPlain(p.number);
    PortNumberOfDecimal(p.number);
    assert '/' !in digits;
    ProtocolRoundTrip(p.protocol);
    hide Decimal, ProtocolName, ParseProtocol, PortNumber, SplitN, IndexOf, AllDigits;
    SplitHead(digits, proto, sub);
    var rest := digits + ['/'] + after;
    Shape(p, sub);
    hide PrintEntry;
    IndexOfAt(p.name, ':', rest);
  }

  lemma Shape(p: Port, sub: Option<string>)
    ensures var digits, proto := Decimal(p.number), ProtocolName(p.protocol);
            var after := if sub.None? then proto else proto + ['/'] + sub.value;
            PrintEntry(Entry(p, sub)) == p.name + [':'] + (digits + ['/'] + after)
  {
  }

  /** Trimming a printed entry touches its application protocol at most. */
  lemma TrimEntry(e: Entry)
    requires PrintableEntry(e)
    ensures var raw := TrimSpace(PrintEntry(e));
            raw != "" && raw == PrintEntry(Entry(e.port, if e.sub.None? then None else Some(TrimRight(e.sub.value))))
  {
    var s := PrintEntry(e);
    var head := Head(e.port);
    assert head[0] == if e.port.name == "" then ':' else e.port.name[0];
    assert !IsSpace(s[0]);
    assert TrimLeft(s) == s;
    assert head[|head| - 1] == 'P';
    if e.sub.None? {
      TrimRightSolid(head, "");
      assert head + "" == head;
    } else {
      assert s == (head + "/") + e.sub.value;
      TrimRightSolid(head + "/", e.sub.value);
    }
  }

  lemma EntryPlain(e: Entry)
    requires PrintableEntry(e)
    ensures ',' !in PrintEntry(e)
  {
    DecimalPlain(e.port.number);
  }

  lemma ParseTrimmed(e: Entry)
    requires PrintableEntry(e)
    ensures var raw := TrimSpace(PrintEntry(e));
            raw != "" && ParseEntry(raw) == Some(e.port)
  {
    hide ParseEntry, TrimSpace, PrintEntry, TrimRight, Printable;
    TrimEntry(e);
    ParseHead(e.port, if e.sub.None? then None else Some(TrimRight(e.sub.value)));
  }

  lemma Tails(es: seq<Entry>)
    requires es != []
    ensures PrintEntries(es) != [] && PrintEntries(es)[0] == PrintEntry(es[0])
    ensures PrintEntries(es)[1..] == PrintEntries(es[1..])
    ensures PortsOf(es) == [es[0].port] + PortsOf(es[1..])
  {
  }

  lemma {:induction false} ParsePrinted(es: seq<Entry>)
    requires forall e :: e in es ==> PrintableEntry(e)
    ensures ParseEntries(PrintEntries(es)) == Some(PortsOf(es))
  {
    if es != [] {
      hide ParseEntry, TrimSpace, PrintEntry, TrimRight, PrintableEntry;
      var e := es[0];
      assert e in es;
      ParseTrimmed(e);
      Tails(es);
      hide PrintEntries, PortsOf;
      ParsePrinted(es[1..]);
    } else {
      assert PrintEntries(es) == [] && PortsOf(es) == [];
    }
  }

  lemma NothingPrinted()
    ensures Parse(Print([])) == Some([])
  {
  }

  /** Printing any catalog and parsing the catalog gives back its ports, in order. */
  lemma ParseOfPrint(es: seq<Entry>)
    requires forall e :: e in es ==> PrintableEntry(e)
    ensures Parse(Print(es)) == Some(PortsOf(es))
  {
    hide PrintEntry;
    if es == [] {
      NothingPrinted();
      assert PortsOf(es) == [];
    } else {
      var parts := PrintEntries(es);
      forall part | part in parts
        ensures ',' !in part
      {
        var i :| 0 <= i < |parts| && parts[i] == part;
        assert es[i] in es;
        EntryPlain(es[i]);
      }
      SplitJoin(parts, ',');
      ParsePrinted(es);
    }
  }

  // ---- What the parser accepts ----

  lemma {:induction false} TrimRightPrefix(s: string)
    ensures TrimRight(s) <= s
    decreases |s|
  {
    if s == "" || !IsSpace(s[|s| - 1]) {
    } else {
      TrimRightPrefix(s[..|s| - 1]);
    }
  }

  lemma {:induction false} TrimLeftSolid(s: string)
    ensures TrimLeft(s) != "" ==> !IsSpace(TrimLeft(s)[0])
    ensures forall c :: c in TrimLeft(s) ==> c in s
  {
    if s == "" || !IsSpace(s[0]) {
    } else {
      TrimLeftSolid(s[1..]);
    }
  }

  lemma TrimmedSolid(s: string)
    ensures var t := TrimSpace(s);
            (t != "" ==> !IsSpace(t[0])) && forall c :: c in t ==> c in s
  {
    TrimLeftSolid(s);
    TrimRightPrefix(TrimLeft(s));
    var t, u := TrimSpace(s), TrimLeft(s);
    assert t == u[..|t|];
  }

  lemma {:induction false} AcceptedPrintable(entries: seq<string>)
    requires ParseEntries(entries).Some?
    requires forall e :: e in entries ==> ',' !in e
    ensures forall p :: p in ParseEntries(entries).value ==> Printable(p)
  {
    if entries == [] {
    } else {
      var raw := TrimSpace(entries[0]);
      TrimmedSolid(entries[0]);
      hide TrimSpace, SplitN, ParseProtocol, IsSpace;
      assert entries[0] in entries;
      AcceptedPrintable(entries[1..]);
      if raw != "" {
        var p := ParseEntry(raw).value;
        var colon := IndexOf(raw, ':');
        assert p.name == raw[..colon];
        assert forall c :: c in p.name ==> c in raw;
      }
    }
  }

  // ---- Which catalogs are accepted, and as what ----

  /** `s` is `name` in some mixture of cases. */
  predicate CaseOf(s: string, name: string) {
    |s| == |name|
    && forall i :: 0 <= i < |s| ==> s[i] == name[i] || ('a' <= s[i] <= 'z' && s[i] as int - 32 == name[i] as int)
  }

  /** An entry taken apart: name:number/protocol, and perhaps a slash with anything after it. */
  ghost predicate Parts(raw: string, p: Port, digits: string, proto: string, tail: string) {
    && raw == p.name + ":" + digits + "/" + proto + tail
    && ':' !in p.name && '/' !in digits && '/' !in proto && (tail == "" || tail[0] == '/')
    && AllDigits(digits) && Value(digits) == p.number && 1 <= p.number <= 65535
    && CaseOf(proto, if p.protocol.TCP? then "TCP" else "UDP")
  }

  ghost predicate Spells(raw: string, p: Port) {
    exists digits, proto, tail :: Parts(raw, p, digits, proto, tail)
  }

  lemma UpperIff(s: string, p: Protocol)
    ensures ParseProtocol(s) == Some(p) <==> CaseOf(s, if p.TCP? then "TCP" else "UDP")
  {
    var name := if p.TCP? then "TCP" else "UDP";
    assert "TCP" == ['T', 'C', 'P'] && "UDP" == ['U', 'D', 'P'];
    if CaseOf(s, name) {
      assert ToUpper(s) == name;
    }
    if ToUpper(s) == name {
      forall i | 0 <= i < |s|
        ensures s[i] == name[i] || ('a' <= s[i] <= 'z' && s[i] as int - 32 == name[i] as int)
      {
        assert UpperChar(s[i]) == name[i];
      }
    }
  }

  lemma SplitAt(s: string, sep: char) returns (before: string, after: string)
    requires sep in s
    ensures s == before + [sep] + after && sep !in before
  {
    before, after := s[..IndexOf(s, sep)], s[IndexOf(s, sep) + 1..];
  }

  /** The form of an entry: the name, the digits and the protocol end at the first colon and slashes. */
  ghost predicate Cut(raw: string, name: string, digits: string, proto: string, tail: string) {
    && raw == name + [':'] + (digits + ['/'] + (proto + tail))
    && ':' !in name && '/' !in digits && '/' !in proto && (tail == "" || tail[0] == '/')
  }

  lemma OnePart(s: string)
    requires '/' !in s
    ensures SplitN(s, '/', 3) == [s]
  {
  }

  lemma CutName(raw: string) returns (name: string, rest: string)
    requires ParseEntry(raw).Some?
    ensures raw == name + [':'] + rest && ':' !in name && '/' in rest
  {
    hide SplitN, ParseProtocol, PortNumber;
    var colon := IndexOf(raw, ':');
    name, rest := raw[..colon], raw[colon + 1..];
    if '/' !in rest {
      OnePart(rest);
    }
  }

  lemma CutTail(after: string) returns (proto: string, tail: string)
    ensures after == proto + tail && '/' !in proto && (tail == "" || tail[0] == '/')
  {
    if '/' in after {
      var sub: string;
      proto, sub := SplitAt(after, '/');
      tail := ['/'] + sub;
    } else {
      proto, tail := after, "";
    }
  }

  lemma CutEntry(raw: string) returns (name: string, digits: string, proto: string, tail: string)
    requires ParseEntry(raw).Some?
    ensures Cut(raw, name, digits, proto, tail)
  {
    var rest, after: string;
    name, rest := CutName(raw);
    hide ParseEntry;
    digits, after := SplitAt(rest, '/');
    proto, tail := CutTail(after);
  }

  /** An entry of that form parses to what its number and protocol do. */
  lemma CutParses(raw: string, name: string, digits: string, proto: string, tail: string)
    requires Cut(raw, name, digits, proto, tail)
    ensures var (number, protocol) := (PortNumber(digits), ParseProtocol(proto));
            ParseEntry(raw)
            == if number.None? || protocol.None? then None else Some(Port(name, number.value, protocol.value))
  {
    var sub := if tail == "" then None else Some(tail[1..]);
    var after := if sub.None? then proto else proto + ['/'] + sub.value;
    assert after == proto + tail by {
      assert tail != "" ==> tail == ['/'] + tail[1..];
    }
    SplitHead(digits, proto, sub);
    IndexOfAt(name, ':', digits + ['/'] + after);
    hide IndexOf, SplitN, ToUpper, ParseProtocol, PortNumber;
  }

  lemma PartsIff(raw: string, p: Port, digits: string, proto: string, tail: string)
    ensures Parts(raw, p, digits, proto, tail)
       <==> && Cut(raw, p.name, digits, proto, tail)
            && PortNumber(digits) == Some(p.number) && ParseProtocol(proto) == Some(p.protocol)
  {
    UpperIff(proto, p.protocol);
    hide ParseProtocol, CaseOf, Value;
    assert p.name + [':'] + (digits + ['/'] + (proto + tail)) == p.name + ":" + digits + "/" + proto + tail;
  }

  /** The entries that are not blank, trimmed. */
  function Solid(entries: seq<string>): seq<string> {
    if entries == [] then []
    else (if TrimSpace(entries[0]) == "" then [] else [TrimSpace(entries[0])]) + Solid(entries[1..])
  }

  lemma EntryIff(raw: string, p: Port)
    ensures ParseEntry(raw) == Some(p) <==> Spells(raw, p)
  {
    hide ParseEntry, Parts, Cut, PortNumber, ParseProtocol;
    if ParseEntry(raw) == Some(p) {
      var name, digits, proto, tail := CutEntry(raw);
      CutParses(raw, name, digits, proto, tail);
      PartsIff(raw, p, digits, proto, tail);
    }
    if Spells(raw, p) {
      var digits, proto, tail :| Parts(raw, p, digits, proto, tail);
      PartsIff(raw, p, digits, proto, tail);
      CutParses(raw, p.name, digits, proto, tail);
    }
  }

  lemma {:induction false} ParseEntriesIff(entries: seq<string>, ports: seq<Port>)
    ensures ParseEntries(entries) == Some(ports)
       <==> |ports| == |Solid(entries)|
            && forall i :: 0 <= i < |ports| ==> ParseEntry(Solid(entries)[i]) == Some(ports[i])
  {
    hide TrimSpace, ParseEntry;
    if entries == [] {
    } else if TrimSpace(entries[0]) == "" {
      ParseEntriesIff(entries[1..], ports);
      assert Solid(entries) == Solid(entries[1..]);
    } else {
      var solid, rest := Solid(entries), Solid(entries[1..]);
      assert solid == [TrimSpace(entries[0])] + rest;
      if ports != [] {
        ParseEntriesIff(entries[1..], ports[1..]);
        assert ports == [ports[0]] + ports[1..];
        assert forall i :: 0 <= i < |rest| ==> solid[i + 1] == rest[i];
        assert forall i :: 0 <= i < |ports| - 1 ==> ports[i + 1] == ports[1..][i];
      }
    }
  }

  /** A catalog is accepted as these ports exactly when its entries, but for blank ones, spell them in order. */
  lemma ParseIff(catalog: string, ports: seq<Port>)
    ensures var entries := Solid(Split(catalog, ','));
            Parse(catalog) == Some(ports)
            <==> |ports| == |entries| && forall i :: 0 <= i < |ports| ==> Spells(entries[i], ports[i])
  {
    hide ParseEntry, Spells, ParseEntries;
    var entries := Solid(Split(catalog, ','));
    ParseEntriesIff(Split(catalog, ','), ports);
    hide Solid;
    forall raw, p
      ensures ParseEntry(raw) == Some(p) <==> Spells(raw, p)
    {
      EntryIff(raw, p);
    }
  }

  function WithoutSub(ports: seq<Port>): seq<Entry> {
    seq(|ports|, i requires 0 <= i < |ports| => Entry(ports[i], None))
  }

  /** Whatever the parser accepts prints to a catalog that parses to the same ports. */
  lemma AcceptedRoundTrip(catalog: string)
    requires Parse(catalog).Some?
    ensures var ports := Parse(catalog).value;
            (forall p :: p in ports ==> Printable(p)) && Parse(Print(WithoutSub(ports))) == Some(ports)
  {
    SplitParts(catalog, ',');
    AcceptedPrintable(Split(catalog, ','));
    var ports := Parse(catalog).value;
    ParseOfPrint(WithoutSub(ports));
    assert PortsOf(WithoutSub(ports)) == ports;
  }
}
