/** The text form of instruction dependency traces: the writer of
    gem5/util/decode_inst_dep_trace.py and the reader of gem5/util/encode_inst_dep_trace.py. */
module DepTrace {
  import opened Specs

  type U64 = x: nat | x < 0x1_0000_0000_0000_0000
  type U32 = x: nat | x < 0x1_0000_0000

  datatype Kind = Invalid | Load | Store | Comp

  datatype Record = Record(
    seqNum: U64, kind: Kind, pAddr: Option<U64>, size: Option<U32>, flags: Option<U32>,
    robDep: seq<U64>, compDelay: U64, regDep: seq<U64>, weight: Option<U32>, pc: Option<U64>,
    vAddr: Option<U64>, asid: Option<U32>)

  /** A value, or the exception that ends the reader. */
  datatype Outcome<T> = Ok(value: T) | Bad {
    predicate IsFailure() { Bad? }
    function PropagateFailure<U>(): Outcome<U> requires Bad? { Bad }
    function Extract(): T requires Ok? { value }
  }

  // ----- decimal numbers -----

  predicate IsDigit(c: char) { '0' <= c <= '9' }

  function Decimal(n: nat): string {
    (if n < 10 then "" else Decimal(n / 10)) + [('0' as int + n % 10) as char]
  }

  // ----- words and separators -----

  datatype Words = Nil | Cons(head: string, tail: Words)

  predicate Space(c: char) {
    c == ' ' || c == '\t' || c == '\n' || c == '\r' || c as int == 11 || c as int == 12
  }

  predicate Clean(s: string) { forall i :: 0 <= i < |s| ==> !Space(s[i]) && s[i] != ':' }

  predicate Word(s: string) { Clean(s) && forall i :: 0 <= i < |s| ==> s[i] != ',' }

  predicate AllWords(ws: Words) { ws.Nil? || (Word(ws.head) && AllWords(ws.tail)) }

  /** str.split with a one-character separator: never empty. */
  function Split(s: string, c: char): (ws: Words)
    ensures ws.Cons?
  {
    if s == "" then Cons("", Nil)
    else
      var t := Split(s[1..], c);
      if s[0] == c then Cons("", t) else Cons([s[0]] + t.head, t.tail)
  }

  lemma {:induction false} SplitAt(a: string, c: char, rest: string)
    requires c !in a
    ensures Split(a + [c] + rest, c) == Cons(a, Split(rest, c))
  {
    var s := a + [c] + rest;
    if a == "" {
      assert s[1..] == rest;
    } else {
      assert s[1..] == a[1..] + [c] + rest;
      SplitAt(a[1..], c, rest);
    }
  }

  lemma {:induction false} SplitNone(a: string, c: char)
    requires c !in a
    ensures Split(a, c) == Cons(a, Nil)
  {
    if a != "" { SplitNone(a[1..], c); }
  }

  function StripRight(s: string): string {
    if s != "" && Space(s[|s| - 1]) then StripRight(s[..|s| - 1]) else s
  }

  function StripLeft(s: string): string {
    if s != "" && Space(s[0]) then StripLeft(s[1..]) else s
  }

  function Strip(s: string): string { StripLeft(StripRight(s)) }

  // ----- reading numbers -----

  /** A non-empty string of digits. */
  function Digits(s: string): Outcome<nat> {
    if s == "" || !IsDigit(s[|s| - 1]) then Bad
    else
      var d: nat := s[|s| - 1] as int - '0' as int;
      if |s| == 1 then Ok(d)
      else
        var front :- Digits(s[..|s| - 1]);
        Ok(10 * front + d)
  }

  predicate Signed(s: string) { s != "" && (s[0] == '+' || s[0] == '-') }

  predicate Suffixed(s: string) { s != "" && (s[|s| - 1] == 'L' || s[|s| - 1] == 'l') }

  /** int() and long() of Python 2: surrounding space, a sign with space behind it and, for
      long(), a suffix L. */
  function Number(s: string, isLong: bool): Outcome<int> {
    var t := Strip(s);
    var body := if Signed(t) then StripLeft(t[1..]) else t;
    WithSign(Signed(t) && t[0] == '-', Digits(if isLong && Suffixed(body) then body[..|body| - 1] else body))
  }

  function WithSign(negative: bool, n: Outcome<nat>): Outcome<int> {
    if n.Bad? then Bad else Ok(if negative then 0 - n.value else n.value)
  }

  /** Assigning to a uint64 or uint32 field checks the range. */
  function Number64(s: string): Outcome<U64> {
    var n :- Number(s, true);
    if 0 <= n < 0x1_0000_0000_0000_0000 then Ok(n) else Bad
  }

  function Number32(s: string, isLong: bool): Outcome<U32> {
    var n :- Number(s, isLong);
    if 0 <= n < 0x1_0000_0000 then Ok(n) else Bad
  }

  lemma {:induction false} DigitsDecimal(n: nat)
    ensures Digits(Decimal(n)) == Ok(n)
  {
    var s := Decimal(n);
    if n >= 10 {
      DigitsDecimal(n / 10);
      assert s[..|s| - 1] == Decimal(n / 10);
    }
  }

  lemma {:induction false} DecimalIsDigits(n: nat)
    ensures Decimal(n) != "" && forall i :: 0 <= i < |Decimal(n)| ==> IsDigit(Decimal(n)[i])
  {
    if n >= 10 { DecimalIsDigits(n / 10); }
  }

  lemma NumberDecimal(n: nat, isLong: bool)
    ensures Number(Decimal(n), isLong) == Ok(n)
  {
    var s := Decimal(n);
    DecimalIsDigits(n);
    DigitsDecimal(n);
    NumberOfDigits(s, isLong);
  }

  /** A string of digits is read as it stands. */
  lemma NumberOfDigits(s: string, isLong: bool)
    requires s != "" && forall i :: 0 <= i < |s| ==> IsDigit(s[i])
    ensures Number(s, isLong) == match Digits(s) case Bad => Bad case Ok(n) => Ok(n)
  {
    assert IsDigit(s[0]) && IsDigit(s[|s| - 1]);
    DigitsStay(s);
  }

  lemma DigitsStay(s: string)
    requires s != "" && IsDigit(s[0]) && IsDigit(s[|s| - 1])
    ensures Strip(s) == s && !Signed(s) && !Suffixed(s)
  {}

  predicate AllSpace(s: string) { forall i :: 0 <= i < |s| ==> Space(s[i]) }

  lemma {:induction false} StripRightSpace(s: string, c: string)
    requires AllSpace(c) && (s == "" || !Space(s[|s| - 1]))
    ensures StripRight(s + c) == s
  {
    if c == "" {
      assert s + c == s;
    } else {
      assert (s + c)[..|s + c| - 1] == s + c[..|c| - 1];
      StripRightSpace(s, c[..|c| - 1]);
    }
  }

  lemma {:induction false} StripLeftSpace(a: string, s: string)
    requires AllSpace(a) && (s == "" || !Space(s[0]))
    ensures StripLeft(a + s) == s
  {
    if a == "" {
      assert a + s == s;
    } else {
      assert (a + s)[1..] == a[1..] + s;
      StripLeftSpace(a[1..], s);
    }
  }

  lemma StripSpace(a: string, s: string, c: string)
    requires AllSpace(a) && AllSpace(c) && s != "" && !Space(s[0]) && !Space(s[|s| - 1])
    ensures Strip(a + s + c) == s
  {
    assert (a + s)[|a + s| - 1] == s[|s| - 1];
    StripRightSpace(a + s, c);
    StripLeftSpace(a, s);
  }

  lemma DigitsSuffixed(n: nat, suffix: string, isLong: bool)
    requires suffix == "" || suffix == "L" || suffix == "l"
    ensures
      var body := Decimal(n) + suffix;
      Digits(if isLong && Suffixed(body) then body[..|body| - 1] else body) == if suffix != "" && !isLong then Bad else Ok(n)
  {
    var body := Decimal(n) + suffix;
    DecimalIsDigits(n);
    DigitsDecimal(n);
    if suffix == "" {
      assert body == Decimal(n) && IsDigit(body[|body| - 1]);
    } else {
      assert body[|body| - 1] == suffix[0] && body[..|body| - 1] == Decimal(n);
    }
  }

  /** Every form of a number the reader takes: space around it, a sign with or without
      space behind it, and a suffix L that long() accepts and int() does not. */
  lemma NumberForms(a: string, sign: string, b: string, n: nat, suffix: string, c: string, isLong: bool)
    requires AllSpace(a) && AllSpace(b) && AllSpace(c) && (sign == "" ==> b == "")
    requires sign == "" || sign == "+" || sign == "-"
    requires suffix == "" || suffix == "L" || suffix == "l"
    ensures
      var value: int := if sign == "-" then 0 - n else n;
      Number(a + (sign + b + (Decimal(n) + suffix)) + c, isLong) == if suffix != "" && !isLong then Bad else Ok(value)
  {
    var body := Decimal(n) + suffix;
    var t := sign + b + body;
    BodyEnds(n, suffix);
    SignedEnds(sign, b, body);
    StripSpace(a, t, c);
    DigitsSuffixed(n, suffix, isLong);
    NumberParts(a + t + c, t, sign, body, isLong, if suffix != "" && !isLong then Bad else Ok(n));
  }

  lemma NumberParts(s: string, t: string, sign: string, body: string, isLong: bool, digits: Outcome<nat>)
    requires Strip(s) == t && (Signed(t) <==> sign != "") && (sign != "" ==> t[0] == sign[0])
    requires sign == "" || sign == "+" || sign == "-"
    requires body == if sign == "" then t else StripLeft(t[1..])
    requires digits == Digits(if isLong && Suffixed(body) then body[..|body| - 1] else body)
    ensures Number(s, isLong) == WithSign(sign == "-", digits)
  {
  }

  lemma BodyEnds(n: nat, suffix: string)
    requires suffix == "" || suffix == "L" || suffix == "l"
    ensures
      var body := Decimal(n) + suffix;
      body != "" && !Space(body[0]) && !Space(body[|body| - 1]) && !Signed(body)
  {
    var body := Decimal(n) + suffix;
    DecimalIsDigits(n);
    assert body[0] == Decimal(n)[0] && body[|body| - 1] == if suffix == "" then Decimal(n)[|Decimal(n)| - 1] else suffix[0];
  }

  lemma SignedEnds(sign: string, b: string, body: string)
    requires AllSpace(b) && (sign == "" ==> b == "") && (sign == "" || sign == "+" || sign == "-")
    requires body != "" && !Space(body[0]) && !Space(body[|body| - 1]) && !Signed(body)
    ensures
      var t := sign + b + body;
      && t != "" && !Space(t[0]) && !Space(t[|t| - 1])
      && (Signed(t) <==> sign != "") && (sign != "" ==> t[0] == sign[0])
      && (if sign == "" then t == body else StripLeft(t[1..]) == body)
  {
    var t := sign + b + body;
    assert t[|t| - 1] == body[|body| - 1];
    if sign == "" {
      assert t == body;
    } else {
      assert t[1..] == b + body;
      StripLeftSpace(b, body);
    }
  }

  /** Every word preceded by a comma, as the writer writes fields and dependencies. */
  function Commas(ws: Words): string {
    if ws.Nil? then "" else "," + ws.head + Commas(ws.tail)
  }

  lemma {:induction false} CommasClean(ws: Words)
    requires AllWords(ws)
    ensures Clean(Commas(ws))
  {
    if ws.Cons? { CommasClean(ws.tail); }
  }

  /** Splitting at commas undoes writing with commas. */
  lemma {:induction false} SplitCommas(a: string, ws: Words)
    requires Word(a) && AllWords(ws)
    ensures Split(a + Commas(ws), ',') == Cons(a, ws)
    decreases ws
  {
    if ws.Nil? {
      assert a + Commas(ws) == a;
      SplitNone(a, ',');
    } else {
      assert a + Commas(ws) == a + [','] + (ws.head + Commas(ws.tail));
      SplitAt(a, ',', ws.head + Commas(ws.tail));
      SplitCommas(ws.head, ws.tail);
    }
  }

  // ----- the writer -----

  function KindName(k: Kind): string {
    match k
    case Invalid => "INVALID"
    case Load => "LOAD"
    case Store => "STORE"
    case Comp => "COMP"
  }

  function IfPresent(x: Option<nat>, ws: Words): Words {
    if x.Some? then Cons(Decimal(x.value), ws) else ws
  }

  function PcOf(r: Record): U64 { if r.pc.Some? then r.pc.value else 0 }

  function WeightOf(r: Record): U32 { if r.weight.Some? then r.weight.value else 1 }

  function Operands(r: Record): Words {
    IfPresent(r.pAddr, IfPresent(r.size, IfPresent(r.flags, Cons(Decimal(r.compDelay), Nil))))
  }

  /** The comma-separated fields behind the sequence number. */
  function Fields(r: Record): Words {
    Cons(Decimal(PcOf(r)), Cons(Decimal(WeightOf(r)), Cons(KindName(r.kind), Operands(r))))
  }

  function DepWords(deps: seq<U64>): Words {
    if deps == [] then Nil else Cons(Decimal(deps[0]), DepWords(deps[1..]))
  }

  function Info(r: Record): string { Decimal(r.seqNum) + Commas(Fields(r)) }

  function Deps(deps: seq<U64>): string { Commas(DepWords(deps)) }

  function PrintLine(r: Record): string { Info(r) + ":" + Deps(r.robDep) + ":" + Deps(r.regDep) }

  function PrintTrace(rs: seq<Record>): string {
    if rs == [] then "" else PrintLine(rs[0]) + "\n" + PrintTrace(rs[1..])
  }

  /** One field; `ws` are the words still to be written. */
  method WriteWord(out: string, w: string, ghost ws: Words) returns (out': string)
    ensures out' + Commas(ws) == out + Commas(Cons(w, ws))
  {
    out' := out + "," + w;
  }

  method WriteIfPresent(out: string, x: Option<nat>, ghost ws: Words) returns (out': string)
    ensures out' + Commas(ws) == out + Commas(IfPresent(x, ws))
  {
    out' := out;
    if x.Some? {
      out' := WriteWord(out, Decimal(x.value), ws);
    }
  }

  method WriteDeps(out: string, deps: seq<U64>) returns (out': string)
    ensures out' == out + Deps(deps)
  {
    out' := out;
    for i := 0 to |deps|
      invariant out' + Deps(deps[i..]) == out + Deps(deps)
    {
      assert deps[i..][1..] == deps[i + 1..];
      out' := WriteWord(out', Decimal(deps[i]), DepWords(deps[i + 1..]));
    }
  }

  method WriteInfo(out: string, packet: Record) returns (out': string)
    ensures out' == out + Info(packet)
  {
    ghost var delay := Cons(Decimal(packet.compDelay), Nil);
    ghost var flags := IfPresent(packet.flags, delay);
    ghost var size := IfPresent(packet.size, flags);
    ghost var operands := IfPresent(packet.pAddr, size);
    ghost var kind := Cons(KindName(packet.kind), operands);
    ghost var weight := Cons(Decimal(WeightOf(packet)), kind);
    assert Decimal(0) == "0" && Decimal(1) == "1";
    out' := out + Decimal(packet.seqNum);
    assert out' + Commas(Fields(packet)) == out + Info(packet);
    if packet.pc.Some? {
      out' := WriteWord(out', Decimal(packet.pc.value), weight);
    } else {
      out' := WriteWord(out', "0", weight);
    }
    if packet.weight.Some? {
      out' := WriteWord(out', Decimal(packet.weight.value), kind);
    } else {
      out' := WriteWord(out', "1", kind);
    }
    out' := WriteWord(out', KindName(packet.kind), operands);
    out' := WriteIfPresent(out', packet.pAddr, size);
    out' := WriteIfPresent(out', packet.size, flags);
    out' := WriteIfPresent(out', packet.flags, delay);
    out' := WriteWord(out', Decimal(packet.compDelay), Nil);
  }

  method WriteLine(out: string, packet: Record) returns (out': string)
    ensures out' == out + PrintLine(packet)
  {
    out' := WriteInfo(out, packet);
    out' := WriteDeps(out' + ":", packet.robDep);
    out' := WriteDeps(out' + ":", packet.regDep);
    Regroup(out, Info(packet), Deps(packet.robDep), Deps(packet.regDep));
  }

  lemma Regroup(out: string, a: string, b: string, c: string)
    ensures out + a + ":" + b + ":" + c == out + (a + ":" + b + ":" + c)
  {}

  lemma Regroup2(out: string, line: string, rest: string)
    ensures out + (line + "\n" + rest) == out + line + "\n" + rest
  {}

  /** The decode script's loop over the packets. */
  method DecodeTrace(packets: seq<Record>) returns (asciiOut: string)
    ensures asciiOut == PrintTrace(packets)
  {
    asciiOut := "";
    for i := 0 to |packets|
      invariant asciiOut + PrintTrace(packets[i..]) == PrintTrace(packets)
    {
      assert packets[i..][1..] == packets[i + 1..];
      Regroup2(asciiOut, PrintLine(packets[i]), PrintTrace(packets[i + 1..]));
      asciiOut := WriteLine(asciiOut, packets[i]);
      asciiOut := asciiOut + "\n";
    }
  }

  // ----- the reader -----

  function KindOf(s: string): Outcome<Kind> {
    if s == "INVALID" then Ok(Invalid)
    else if s == "LOAD" then Ok(Load)
    else if s == "STORE" then Ok(Store)
    else if s == "COMP" then Ok(Comp)
    else Bad
  }

  /** Empty items are skipped. */
  function ParseDeps(ws: Words): Outcome<seq<U64>> {
    if ws.Nil? then Ok([])
    else if ws.head == "" then ParseDeps(ws.tail)
    else
      var d :- Number64(ws.head);
      var rest :- ParseDeps(ws.tail);
      Ok([d] + rest)
  }

  datatype Access = Access(pAddr: Option<U64>, size: Option<U32>, flags: Option<U32>, compDelay: U64)

  /** Loads and stores unpack items 4 to 7, others take item 4; later items are ignored. */
  function ParseOperands(kind: Kind, ws: Words): Outcome<Access> {
    if kind.Load? || kind.Store? then
      match ws
      case Cons(a, Cons(s, Cons(f, Cons(c, _)))) =>
        var pAddr :- Number64(a);
        var size :- Number32(s, false);
        var flags :- Number32(f, false);
        var delay :- Number64(c);
        Ok(Access(Some(pAddr), Some(size), Some(flags), delay))
      case _ => Bad
    else
      match ws
      case Cons(c, _) =>
        var delay :- Number64(c);
        Ok(Access(None, None, None, delay))
      case _ => Bad
  }

  function ParseInfo(ws: Words): Outcome<Record> {
    match ws
    case Cons(n, Cons(p, Cons(w, Cons(t, operands)))) =>
      var seqNum :- Number64(n);
      var pc :- Number64(p);
      var weight :- Number32(w, true);
      var kind :- KindOf(t);
      if kind.Invalid? then Bad
      else
        var a :- ParseOperands(kind, operands);
        Ok(Record(seqNum, kind, a.pAddr, a.size, a.flags, [], a.compDelay, [], Some(weight), Some(pc), None, None))
    case _ => Bad
  }

  function ParseLine(line: string): Outcome<Record> {
    match Split(Strip(line), ':')
    case Cons(info, Cons(rob, Cons(reg, Nil))) =>
      var r :- ParseInfo(Split(info, ','));
      var robDep :- ParseDeps(Split(Strip(rob), ','));
      var regDep :- ParseDeps(Split(reg, ','));
      Ok(r.(robDep := robDep, regDep := regDep))
    case _ => Bad
  }

  /** Where the first line ends, its newline included. */
  function LineEnd(s: string): (k: nat)
    ensures k <= |s| && (s != "" ==> k > 0)
  {
    if s == "" then 0 else if s[0] == '\n' then 1 else 1 + LineEnd(s[1..])
  }

  /** Records are written until the first line that cannot be read. */
  datatype Parsed = Parsed(records: seq<Record>, complete: bool)

  function ParseTrace(text: string): Parsed
    decreases |text|
  {
    if text == "" then Parsed([], true)
    else
      match ParseLine(text[..LineEnd(text)])
      case Bad => Parsed([], false)
      case Ok(r) =>
        var rest := ParseTrace(text[LineEnd(text)..]);
        Parsed([r] + rest.records, rest.complete)
  }

  function Behind(found: seq<U64>, more: Outcome<seq<U64>>): Outcome<seq<U64>> {
    match more
    case Bad => Bad
    case Ok(deps) => Ok(found + deps)
  }

  lemma NextDep(found: seq<U64>, ws: Words)
    requires ws.Cons?
    ensures Behind(found, ParseDeps(ws)) ==
            if ws.head == "" then Behind(found, ParseDeps(ws.tail))
            else match Number64(ws.head)
                 case Bad => Bad
                 case Ok(d) => Behind(found + [d], ParseDeps(ws.tail))
  {
    if ws.head != "" && Number64(ws.head).Ok? && ParseDeps(ws.tail).Ok? {
      var d, deps := Number64(ws.head).value, ParseDeps(ws.tail).value;
      assert found + ([d] + deps) == found + [d] + deps;
    }
  }

  method ReadDeps(items: Words) returns (deps: Outcome<seq<U64>>)
    ensures deps == ParseDeps(items)
  {
    var rest, found: seq<U64> := items, [];
    ghost var answer := ParseDeps(items);
    if answer.Ok? { assert [] + answer.value == answer.value; }
    while rest.Cons?
      invariant Behind(found, ParseDeps(rest)) == answer
      decreases rest
    {
      NextDep(found, rest);
      if rest.head != "" {
        var d := Number64(rest.head);
        if d.Bad? {
          return Bad;
        }
        found := found + [d.value];
      }
      rest := rest.tail;
    }
    assert found + [] == found;
    return Ok(found);
  }

  method ReadLine(line: string) returns (r: Outcome<Record>)
    ensures r == ParseLine(line)
  {
    match Split(Strip(line), ':')
    case Cons(info, Cons(rob, Cons(reg, Nil))) =>
      r := ParseInfo(Split(info, ','));
      if r.Ok? {
        var robDep := ReadDeps(Split(Strip(rob), ','));
        var regDep := ReadDeps(Split(reg, ','));
        r := if robDep.Bad? || regDep.Bad? then Bad
             else Ok(r.value.(robDep := robDep.value, regDep := regDep.value));
      }
    case _ =>
      r := Bad;
  }

  /** The encode script's loop over the lines. */
  method EncodeTrace(asciiIn: string) returns (out: Parsed)
    ensures out == ParseTrace(asciiIn)
  {
    var rest, records: seq<Record> := asciiIn, [];
    while rest != ""
      invariant ParseTrace(asciiIn) == Parsed(records + ParseTrace(rest).records, ParseTrace(rest).complete)
      decreases |rest|
    {
      var r := ReadLine(rest[..LineEnd(rest)]);
      if r.Bad? {
        return Parsed(records, false);
      }
      records := records + [r.value];
      rest := rest[LineEnd(rest)..];
    }
    return Parsed(records, true);
  }

  // ----- the round trip -----

  /** The record with the defaults for pc and weight, 0 and 1, made explicit. */
  function WithDefaults(r: Record): Record {
    r.(pc := if r.pc.None? then Some(0) else r.pc, weight := if r.weight.None? then Some(1) else r.weight)
  }

  /** Loads and stores carry address, size and flags, and other kinds none of them. */
  predicate ShapedAccess(r: Record) {
    if r.kind.Load? || r.kind.Store? then r.pAddr.Some? && r.size.Some? && r.flags.Some?
    else r.pAddr.None? && r.size.None? && r.flags.None?
  }

  predicate Shaped(r: Record) {
    !r.kind.Invalid? && ShapedAccess(r) && r.vAddr.None? && r.asid.None?
  }

  lemma DecimalWord(n: nat)
    ensures Decimal(n) != "" && Word(Decimal(n))
  {
    DecimalIsDigits(n);
  }

  lemma KindRoundTrip(k: Kind)
    ensures KindOf(KindName(k)) == Ok(k) && Word(KindName(k))
  {
    var s := KindName(k);
    if k.Store? { assert s[0] == 'S'; } else if k.Load? { assert s[0] == 'L'; } else if k.Comp? { assert s[0] == 'C'; }
  }

  lemma {:induction false} DepsRoundTrip(deps: seq<U64>)
    ensures AllWords(DepWords(deps)) && ParseDeps(DepWords(deps)) == Ok(deps)
  {
    if deps != [] {
      DecimalWord(deps[0]);
      Number64Decimal(deps[0]);
      DepsRoundTrip(deps[1..]);
      assert deps == [deps[0]] + deps[1..];
    }
  }

  lemma IfPresentWords(x: Option<nat>, ws: Words)
    requires AllWords(ws)
    ensures AllWords(IfPresent(x, ws))
  {
    if x.Some? { DecimalWord(x.value); }
  }

  lemma FieldsWords(r: Record)
    ensures AllWords(Fields(r))
  {
    var delay := Cons(Decimal(r.compDelay), Nil);
    var flags := IfPresent(r.flags, delay);
    var size := IfPresent(r.size, flags);
    DecimalWord(r.compDelay);
    assert AllWords(delay);
    IfPresentWords(r.flags, delay);
    IfPresentWords(r.size, flags);
    IfPresentWords(r.pAddr, size);
    KindRoundTrip(r.kind);
    DecimalWord(WeightOf(r));
    DecimalWord(PcOf(r));
    var kind := Cons(KindName(r.kind), Operands(r));
    assert AllWords(kind);
    assert AllWords(Cons(Decimal(WeightOf(r)), kind));
  }

  function AccessOf(r: Record): Access { Access(r.pAddr, r.size, r.flags, r.compDelay) }

  lemma Number64Decimal(n: U64)
    ensures Number64(Decimal(n)) == Ok(n)
  {
    NumberDecimal(n, true);
  }

  lemma Number32Decimal(n: U32, isLong: bool)
    ensures Number32(Decimal(n), isLong) == Ok(n)
  {
    NumberDecimal(n, isLong);
  }

  lemma MemoryRoundTrip(r: Record)
    requires r.kind.Load? || r.kind.Store?
    ensures ParseOperands(r.kind, Operands(r)) == Ok(AccessOf(r)) <==> ShapedAccess(r)
  {
    var delay := Cons(Decimal(r.compDelay), Nil);
    if ShapedAccess(r) {
      var a, s, f := Decimal(r.pAddr.value), Decimal(r.size.value), Decimal(r.flags.value);
      assert Operands(r) == Cons(a, Cons(s, Cons(f, delay)));
      Number64Decimal(r.pAddr.value);
      Number32Decimal(r.size.value, false);
      Number32Decimal(r.flags.value, false);
      Number64Decimal(r.compDelay);
    }
  }

  lemma CompRoundTrip(r: Record)
    requires !r.kind.Load? && !r.kind.Store?
    ensures ParseOperands(r.kind, Operands(r)) == Ok(AccessOf(r)) <==> ShapedAccess(r)
  {
    if ShapedAccess(r) {
      Number64Decimal(r.compDelay);
      assert Operands(r) == Cons(Decimal(r.compDelay), Nil);
    }
  }

  lemma InfoRoundTrip(r: Record)
    ensures var p := ParseInfo(Cons(Decimal(r.seqNum), Fields(r)));
            && (p.Ok? ==> p.value.robDep == [] && p.value.regDep == [])
            && (p == Ok(WithDefaults(r).(robDep := [], regDep := [])) <==> Shaped(r))
  {
    Number64Decimal(r.seqNum);
    Number64Decimal(PcOf(r));
    Number32Decimal(WeightOf(r), true);
    KindRoundTrip(r.kind);
    if r.kind.Load? || r.kind.Store? { MemoryRoundTrip(r); } else { CompRoundTrip(r); }
  }

  predicate NoSpace(s: string) { forall i :: 0 <= i < |s| ==> !Space(s[i]) }

  lemma StripNoSpace(s: string)
    requires NoSpace(s)
    ensures Strip(s) == s && Strip(s + "\n") == s
  {
    assert (s + "\n")[..|s|] == s;
    assert StripRight(s + "\n") == s;
  }

  lemma SplitLine(a: string, b: string, c: string)
    requires Clean(a) && Clean(b) && Clean(c)
    ensures Split(Strip(a + ":" + b + ":" + c + "\n"), ':') == Cons(a, Cons(b, Cons(c, Nil)))
    ensures NoSpace(a + ":" + b + ":" + c)
  {
    StripNoSpace(a + ":" + b + ":" + c);
    assert a + ":" + b + ":" + c == a + [':'] + (b + [':'] + c);
    SplitAt(a, ':', b + [':'] + c);
    SplitAt(b, ':', c);
    SplitNone(c, ':');
  }

  lemma SplitDeps(deps: seq<U64>)
    ensures Clean(Deps(deps)) && Strip(Deps(deps)) == Deps(deps)
    ensures ParseDeps(Split(Deps(deps), ',')) == Ok(deps)
  {
    DepsRoundTrip(deps);
    CommasClean(DepWords(deps));
    StripNoSpace(Deps(deps));
    SplitCommas("", DepWords(deps));
    assert "" + Deps(deps) == Deps(deps);
  }

  lemma SplitInfo(r: Record)
    ensures Clean(Info(r)) && Split(Info(r), ',') == Cons(Decimal(r.seqNum), Fields(r))
  {
    DecimalWord(r.seqNum);
    FieldsWords(r);
    CommasClean(Fields(r));
    SplitCommas(Decimal(r.seqNum), Fields(r));
  }

  /** Reading a written line gives the record back, up to the defaults, exactly when the
      record has the shape of its kind. */
  lemma LineRoundTrip(r: Record)
    ensures ParseLine(PrintLine(r) + "\n") == Ok(WithDefaults(r)) <==> Shaped(r)
    ensures NoSpace(PrintLine(r))
  {
    SplitInfo(r);
    SplitDeps(r.robDep);
    SplitDeps(r.regDep);
    SplitLine(Info(r), Deps(r.robDep), Deps(r.regDep));
    InfoRoundTrip(r);
  }

  function Optional(x: Option<nat>): string { if x.None? then "" else "," + Decimal(x.value) }

  function Listed(deps: seq<U64>): string {
    if deps == [] then "" else Listed(deps[..|deps| - 1]) + "," + Decimal(deps[|deps| - 1])
  }

  lemma {:induction false} CommasListed(deps: seq<U64>)
    ensures Deps(deps) == Listed(deps)
  {
    if deps != [] {
      CommasListed(deps[..|deps| - 1]);
      LastDep(deps);
    }
  }

  lemma {:induction false} LastDep(deps: seq<U64>)
    requires deps != []
    ensures Deps(deps) == Deps(deps[..|deps| - 1]) + "," + Decimal(deps[|deps| - 1])
  {
    var front := deps[..|deps| - 1];
    if front != [] {
      LastDep(deps[1..]);
      assert deps[1..][..|deps| - 2] == front[1..];
    }
  }

  /** The line of a record, field by field: pc defaults to 0 and weight to 1, address, size
      and flags appear only if present, order dependencies come before register ones. */
  lemma LineText(r: Record)
    ensures
      var pc := if r.pc.None? then "0" else Decimal(r.pc.value);
      var weight := if r.weight.None? then "1" else Decimal(r.weight.value);
      var kind := if r.kind.Load? then "LOAD" else if r.kind.Store? then "STORE"
                  else if r.kind.Comp? then "COMP" else "INVALID";
      var operands := Optional(r.pAddr) + Optional(r.size) + Optional(r.flags) + "," + Decimal(r.compDelay);
      PrintLine(r)
      == Decimal(r.seqNum) + "," + pc + "," + weight + "," + kind + operands
         + ":" + Listed(r.robDep) + ":" + Listed(r.regDep)
  {
    CommasListed(r.robDep);
    CommasListed(r.regDep);
    OperandsText(r);
    assert Decimal(0) == "0" && Decimal(1) == "1";
    var kind := Cons(KindName(r.kind), Operands(r));
    var weight := Cons(Decimal(WeightOf(r)), kind);
    assert Commas(weight) == ("," + Decimal(WeightOf(r))) + Commas(kind);
    assert Commas(Fields(r)) == ("," + Decimal(PcOf(r))) + Commas(weight);
    Flatten(Decimal(r.seqNum), Decimal(PcOf(r)), Decimal(WeightOf(r)), KindName(r.kind), Commas(Operands(r)));
  }

  lemma Flatten(n: string, pc: string, weight: string, kind: string, rest: string)
    ensures n + (("," + pc) + (("," + weight) + (("," + kind) + rest))) == n + "," + pc + "," + weight + "," + kind + rest
  {}

  lemma CommasIfPresent(x: Option<nat>, ws: Words)
    ensures Commas(IfPresent(x, ws)) == Optional(x) + Commas(ws)
  {}

  lemma OperandsText(r: Record)
    ensures Commas(Operands(r)) == Optional(r.pAddr) + Optional(r.size) + Optional(r.flags) + "," + Decimal(r.compDelay)
  {
    var delay := Cons(Decimal(r.compDelay), Nil);
    CommasIfPresent(r.flags, delay);
    CommasIfPresent(r.size, IfPresent(r.flags, delay));
    CommasIfPresent(r.pAddr, IfPresent(r.size, IfPresent(r.flags, delay)));
    FlattenOperands(Optional(r.pAddr), Optional(r.size), Optional(r.flags), Decimal(r.compDelay));
  }

  lemma FlattenOperands(a: string, s: string, f: string, d: string)
    ensures a + (s + (f + (("," + d) + ""))) == a + s + f + "," + d
  {}

  lemma {:induction false} FirstLine(line: string, rest: string)
    requires NoSpace(line)
    ensures LineEnd(line + "\n" + rest) == |line| + 1
  {
    var s := line + "\n" + rest;
    if line != "" {
      assert s[1..] == line[1..] + "\n" + rest;
      FirstLine(line[1..], rest);
    }
  }

  function Defaulted(rs: seq<Record>): seq<Record> {
    if rs == [] then [] else [WithDefaults(rs[0])] + Defaulted(rs[1..])
  }

  predicate AllShaped(rs: seq<Record>) { rs == [] || (Shaped(rs[0]) && AllShaped(rs[1..])) }

  lemma ParseStep(r: Record, rest: string)
    ensures ParseTrace(PrintLine(r) + "\n" + rest) ==
            match ParseLine(PrintLine(r) + "\n")
            case Bad => Parsed([], false)
            case Ok(x) => Parsed([x] + ParseTrace(rest).records, ParseTrace(rest).complete)
  {
    LineRoundTrip(r);
    FirstLine(PrintLine(r), rest);
    var text, n := PrintLine(r) + "\n" + rest, |PrintLine(r)| + 1;
    assert text[..n] == PrintLine(r) + "\n" && text[n..] == rest;
  }

  /** A whole trace written and read back is the same trace, up to the defaults, if and only
      if every record has the shape of its kind. */
  lemma {:induction false} TraceRoundTrip(rs: seq<Record>)
    ensures ParseTrace(PrintTrace(rs)) == Parsed(Defaulted(rs), true) <==> AllShaped(rs)
  {
    if rs != [] {
      var r, rest := rs[0], PrintTrace(rs[1..]);
      LineRoundTrip(r);
      ParseStep(r, rest);
      TraceRoundTrip(rs[1..]);
      var p := ParseLine(PrintLine(r) + "\n");
      if p.Ok? {
        SameHeadTail(p.value, ParseTrace(rest).records, WithDefaults(r), Defaulted(rs[1..]));
      }
    }
  }

  lemma SameHeadTail<T>(x: T, s: seq<T>, y: T, t: seq<T>)
    ensures [x] + s == [y] + t <==> x == y && s == t
  {
    assert ([x] + s)[0] == x && ([x] + s)[1..] == s;
    assert ([y] + t)[0] == y && ([y] + t)[1..] == t;
  }
}
