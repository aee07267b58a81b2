/** JSON texts (RFC 8259) inside free text, and what the response scanner makes of them. */
module JsonTexts {
  import opened BracketScan
  import opened ResponseParser

  // ---------- The grammar ----------

  /** RFC 8259, section 7: an unescaped character, or a backslash and the character after it. */
  datatype Unit = Plain(c: char) | Escaped(c: char)

  /**
   * A JSON text as a tree that keeps every insignificant space (sections 2, 4, 5 and 7).
   * The text of a number or literal name is kept as it is written.
   */
  datatype Json =
    | Scalar(text: string)
    | Str(units: seq<Unit>)
    | Arr(pad: string, elems: Elems)
    | Obj(pad: string, members: Members)

  datatype Elems =
    | NoElems
    | Elem(before: string, v: Json, after: string, rest: Elems)

  datatype Members =
    | NoMembers
    | Member(before: string, key: seq<Unit>, beforeColon: string, afterColon: string,
             v: Json, after: string, rest: Members)

  predicate IsSpaces(s: string) {
    forall c :: c in s ==> c == ' ' || c == '\t' || c == '\n' || c == '\r'
  }

  /** No quote and no bracket: every number and literal name is such a text. */
  predicate Inert(s: string) {
    forall c :: c in s ==> c != '"' && c != '{' && c != '}' && c != '[' && c != ']'
  }

  predicate ValidUnits(us: seq<Unit>) {
    forall u :: u in us && u.Plain? ==> u.c != '"' && u.c != '\\'
  }

  predicate Valid(j: Json) {
    match j
    case Scalar(text) => Inert(text)
    case Str(units) => ValidUnits(units)
    case Arr(pad, elems) => IsSpaces(pad) && ValidElems(elems)
    case Obj(pad, members) => IsSpaces(pad) && ValidMembers(members)
  }

  predicate ValidElems(es: Elems) {
    match es
    case NoElems => true
    case Elem(before, v, after, rest) =>
      IsSpaces(before) && Valid(v) && IsSpaces(after) && ValidElems(rest)
  }

  predicate ValidMembers(ms: Members) {
    match ms
    case NoMembers => true
    case Member(before, key, beforeColon, afterColon, v, after, rest) =>
      && IsSpaces(before) && ValidUnits(key) && IsSpaces(beforeColon) && IsSpaces(afterColon)
      && Valid(v) && IsSpaces(after) && ValidMembers(rest)
  }

  // ---------- Printing ----------

  function UnitsText(us: seq<Unit>): string {
    if us == [] then ""
    else (match us[0] case Plain(c) => [c] case Escaped(c) => ['\\', c]) + UnitsText(us[1..])
  }

  function Quoted(us: seq<Unit>): string { "\"" + UnitsText(us) + "\"" }

  function TextOf(j: Json): string {
    match j
    case Scalar(text) => text
    case Str(units) => Quoted(units)
    case Arr(pad, elems) => "[" + (pad + ElemsText(elems)) + "]"
    case Obj(pad, members) => "{" + (pad + MembersText(members)) + "}"
  }

  function ElemsText(es: Elems): string {
    match es
    case NoElems => ""
    case Elem(before, v, after, rest) =>
      before + (TextOf(v) + (after + (if rest.NoElems? then "" else "," + ElemsText(rest))))
  }

  function MembersText(ms: Members): string {
    match ms
    case NoMembers => ""
    case Member(before, key, beforeColon, afterColon, v, after, rest) =>
      before + (Quoted(key) + (beforeColon + (":" + (afterColon + (TextOf(v)
        + (after + (if rest.NoMembers? then "" else "," + MembersText(rest))))))))
  }

  // ---------- Nested values leave the automaton where it was ----------

  function Min(a: int, b: int): int { if a < b then a else b }

  /** The smallest depth reached while reading s. */
  function MinDepth(k: Kind, st: State, s: string): int
    decreases |s|
  {
    if s == [] then st.depth else Min(st.depth, MinDepth(k, Step(k, st, s[0]), s[1..]))
  }

  lemma {:induction false} MinDepthBounds(k: Kind, st: State, s: string, m: nat)
    requires m <= |s|
    ensures Run(k, st, s[..m]).depth >= MinDepth(k, st, s)
    decreases |s|
  {
    if m > 0 {
      assert s[..m][1..] == s[1..][..m - 1];
      MinDepthBounds(k, Step(k, st, s[0]), s[1..], m - 1);
    }
  }

  lemma {:induction false} MinDepthConcat(k: Kind, st: State, a: string, b: string)
    ensures MinDepth(k, st, a + b) == Min(MinDepth(k, st, a), MinDepth(k, Run(k, st, a), b))
    decreases |a|
  {
    if a == [] {
      assert a + b == b;
    } else {
      assert (a + b)[1..] == a[1..] + b;
      MinDepthConcat(k, Step(k, st, a[0]), a[1..], b);
    }
  }

  lemma OneStep(k: Kind, st: State, c: char)
    ensures Run(k, st, [c]) == Step(k, st, c)
    ensures MinDepth(k, st, [c]) == Min(st.depth, Step(k, st, c).depth)
  {
    assert [c][1..] == [];
  }

  /** Reading s from st ends in st again and never goes below its depth. */
  predicate Neutral(k: Kind, st: State, s: string) {
    Run(k, st, s) == st && MinDepth(k, st, s) >= st.depth
  }

  lemma NeutralConcat(k: Kind, st: State, a: string, b: string)
    requires Neutral(k, st, a) && Neutral(k, st, b)
    ensures Neutral(k, st, a + b)
  {
    RunConcat(k, st, a, b);
    MinDepthConcat(k, st, a, b);
  }

  lemma {:induction false} InertNeutral(k: Kind, d: int, s: string)
    requires Inert(s)
    ensures Neutral(k, At(d), s)
    decreases |s|
  {
    if s != [] {
      assert s[0] in s;
      forall c | c in s[1..] ensures c in s {}
      InertNeutral(k, d, s[1..]);
    }
  }

  lemma {:induction false} UnitsNeutral(k: Kind, d: int, us: seq<Unit>)
    requires ValidUnits(us)
    ensures Neutral(k, State(d, true, false), UnitsText(us))
  {
    if us != [] {
      var st := State(d, true, false);
      UnitsNeutral(k, d, us[1..]);
      assert us[0] in us;
      var head := match us[0] case Plain(c) => [c] case Escaped(c) => ['\\', c];
      assert Neutral(k, st, head) by {
        if us[0].Escaped? {
          assert head == ['\\'] + [us[0].c];
          OneStep(k, st, '\\');
          OneStep(k, State(d, true, true), us[0].c);
          RunConcat(k, st, ['\\'], [us[0].c]);
          MinDepthConcat(k, st, ['\\'], [us[0].c]);
        } else {
          OneStep(k, st, us[0].c);
        }
      }
      NeutralConcat(k, st, head, UnitsText(us[1..]));
    }
  }

  lemma QuotedNeutral(k: Kind, d: int, us: seq<Unit>)
    requires ValidUnits(us)
    ensures Neutral(k, At(d), Quoted(us))
  {
    var inside := State(d, true, false);
    UnitsNeutral(k, d, us);
    OneStep(k, At(d), '"');
    OneStep(k, inside, '"');
    RunConcat(k, At(d), "\"", UnitsText(us));
    MinDepthConcat(k, At(d), "\"", UnitsText(us));
    RunConcat(k, At(d), "\"" + UnitsText(us), "\"");
    MinDepthConcat(k, At(d), "\"" + UnitsText(us), "\"");
  }

  /** The depth inside brackets of kind own, as counted for kind k. */
  function Inside(k: Kind, own: Kind, d: int): int { if k == own then d + 1 else d }

  lemma WrappedNeutral(k: Kind, own: Kind, d: int, body: string)
    requires Neutral(k, At(Inside(k, own, d)), body)
    ensures Neutral(k, At(d), [own.Open()] + body + [own.Close()])
  {
    var o, c, in_ := [own.Open()], [own.Close()], At(Inside(k, own, d));
    OneStep(k, At(d), own.Open());
    OneStep(k, in_, own.Close());
    RunConcat(k, At(d), o, body);
    MinDepthConcat(k, At(d), o, body);
    RunConcat(k, At(d), o + body, c);
    MinDepthConcat(k, At(d), o + body, c);
  }

  lemma {:induction false} JsonNeutral(k: Kind, d: int, j: Json)
    requires Valid(j)
    ensures Neutral(k, At(d), TextOf(j))
    decreases j
  {
    match j
    case Scalar(text) => InertNeutral(k, d, text);
    case Str(units) => QuotedNeutral(k, d, units);
    case Arr(pad, elems) =>
      ArrBody(k, Inside(k, Brackets, d), pad, elems);
      WrappedNeutral(k, Brackets, d, pad + ElemsText(elems));
    case Obj(pad, members) =>
      ObjBody(k, Inside(k, Braces, d), pad, members);
      WrappedNeutral(k, Braces, d, pad + MembersText(members));
  }

  lemma {:induction false} ArrBody(k: Kind, d: int, pad: string, es: Elems)
    requires IsSpaces(pad) && ValidElems(es)
    ensures Neutral(k, At(d), pad + ElemsText(es))
    decreases es, 1
  {
    InertNeutral(k, d, pad);
    ElemsNeutral(k, d, es);
    NeutralConcat(k, At(d), pad, ElemsText(es));
  }

  lemma {:induction false} ObjBody(k: Kind, d: int, pad: string, ms: Members)
    requires IsSpaces(pad) && ValidMembers(ms)
    ensures Neutral(k, At(d), pad + MembersText(ms))
    decreases ms, 1
  {
    InertNeutral(k, d, pad);
    MembersNeutral(k, d, ms);
    NeutralConcat(k, At(d), pad, MembersText(ms));
  }

  /** Spaces, a nested value, spaces, and either nothing or a comma and what follows it. */
  lemma ItemNeutral(k: Kind, d: int, v: Json, after: string, rest: string)
    requires IsSpaces(after) && Neutral(k, At(d), TextOf(v)) && Neutral(k, At(d), rest)
    ensures Neutral(k, At(d), TextOf(v) + (after + rest))
  {
    InertNeutral(k, d, after);
    NeutralConcat(k, At(d), after, rest);
    NeutralConcat(k, At(d), TextOf(v), after + rest);
  }

  lemma {:induction false} ElemsNeutral(k: Kind, d: int, es: Elems)
    requires ValidElems(es)
    ensures Neutral(k, At(d), ElemsText(es))
    decreases es, 0
  {
    match es
    case NoElems =>
    case Elem(before, v, after, rest) =>
      JsonNeutral(k, d, v);
      ElemsNeutral(k, d, rest);
      InertNeutral(k, d, before);
      InertNeutral(k, d, ",");
      NeutralConcat(k, At(d), ",", ElemsText(rest));
      var tail := if rest.NoElems? then "" else "," + ElemsText(rest);
      ItemNeutral(k, d, v, after, tail);
      NeutralConcat(k, At(d), before, TextOf(v) + (after + tail));
  }

  lemma {:induction false} MembersNeutral(k: Kind, d: int, ms: Members)
    requires ValidMembers(ms)
    ensures Neutral(k, At(d), MembersText(ms))
    decreases ms, 0
  {
    match ms
    case NoMembers =>
    case Member(before, key, beforeColon, afterColon, v, after, rest) =>
      JsonNeutral(k, d, v);
      MembersNeutral(k, d, rest);
      InertNeutral(k, d, ",");
      NeutralConcat(k, At(d), ",", MembersText(rest));
      var tail := if rest.NoMembers? then "" else "," + MembersText(rest);
      ItemNeutral(k, d, v, after, tail);
      KeyNeutral(k, d, before, key, beforeColon, afterColon, TextOf(v) + (after + tail));
  }

  lemma KeyNeutral(k: Kind, d: int, before: string, key: seq<Unit>,
                   beforeColon: string, afterColon: string, rest: string)
    requires IsSpaces(before) && ValidUnits(key) && IsSpaces(beforeColon) && IsSpaces(afterColon)
    requires Neutral(k, At(d), rest)
    ensures Neutral(k, At(d), before + (Quoted(key) + (beforeColon + (":" + (afterColon + rest)))))
  {
    InertNeutral(k, d, before);
    QuotedNeutral(k, d, key);
    InertNeutral(k, d, beforeColon);
    InertNeutral(k, d, ":");
    InertNeutral(k, d, afterColon);
    NeutralConcat(k, At(d), afterColon, rest);
    NeutralConcat(k, At(d), ":", afterColon + rest);
    NeutralConcat(k, At(d), beforeColon, ":" + (afterColon + rest));
    NeutralConcat(k, At(d), Quoted(key), beforeColon + (":" + (afterColon + rest)));
    NeutralConcat(k, At(d), before, Quoted(key) + (beforeColon + (":" + (afterColon + rest))));
  }

  // ---------- An object or array closes at its own last character ----------

  predicate IsComposite(j: Json) { j.Arr? || j.Obj? }

  function OwnKind(j: Json): Kind { if j.Obj? then Braces else Brackets }

  lemma CompositeCloses(j: Json, rest: string)
    requires Valid(j) && IsComposite(j)
    ensures TextOf(j)[0] == OwnKind(j).Open()
    ensures Closes(OwnKind(j), TextOf(j) + rest, |TextOf(j)|)
  {
    var k, t := OwnKind(j), TextOf(j);
    var body := if j.Arr? then j.pad + ElemsText(j.elems) else j.pad + MembersText(j.members);
    assert t == [k.Open()] + body + [k.Close()];
    if j.Arr? { ArrBody(k, 1, j.pad, j.elems); } else { ObjBody(k, 1, j.pad, j.members); }
    BodyCloses(k, body, rest);
  }

  lemma BodyCloses(k: Kind, body: string, rest: string)
    requires Neutral(k, At(1), body)
    ensures Closes(k, [k.Open()] + body + [k.Close()] + rest, |body| + 2)
  {
    var o, c := [k.Open()], [k.Close()];
    var s := o + body + c + rest;
    forall m | 0 < m <= |body| + 1 ensures Balance(k, s[..m]) != 0 {
      assert s[..m] == o + body[..m - 1];
      RunConcat(k, At(0), o, body[..m - 1]);
      assert Run(k, At(0), o) == At(1);
      MinDepthBounds(k, At(1), body, m - 1);
      DepthIsBalance(k, At(0), s[..m]);
    }
    assert s[..|body| + 2] == o + body + c;
    RunConcat(k, At(0), o, body);
    RunConcat(k, At(0), o + body, c);
    assert Run(k, At(1), c) == At(0);
    DepthIsBalance(k, At(0), o + body + c);
  }

  // ---------- The round trip ----------

  /** Objects and arrays separated by other text: gap, value, gap, ..., value, gap. */
  function Interleaved(gaps: seq<string>, docs: seq<Json>): string
    requires |gaps| == |docs| + 1
  {
    if docs == [] then gaps[0]
    else gaps[0] + TextOf(docs[0]) + Interleaved(gaps[1..], docs[1..])
  }

  predicate NoOpening(s: string) { forall c :: c in s ==> !IsOpening(c) }

  predicate ValidAnswer(gaps: seq<string>, docs: seq<Json>) {
    && |gaps| == |docs| + 1
    && (forall g :: g in gaps ==> NoOpening(g))
    && (forall j :: j in docs ==> Valid(j) && IsComposite(j))
  }

  function DocTexts(docs: seq<Json>): seq<string> {
    if docs == [] then [] else [TextOf(docs[0])] + DocTexts(docs[1..])
  }

  /** After a gap without an opening bracket, a text that closes at its end is cut out whole. */
  lemma CutNext(raw: string, i: nat, gap: string, t: string, rest: string)
    requires i <= |raw| && NoOpening(gap) && raw[i..] == gap + (t + rest)
    requires t != "" && IsOpening(t[0]) && Closes(KindOf(t[0]), t + rest, |t|)
    ensures |gap| + |t| <= |raw| - i && raw[i + |gap| + |t|..] == rest
    ensures TextsFrom(raw, i) == [t] + TextsFrom(raw, i + |gap| + |t|)
  {
    var p := i + |gap|;
    AfterText(raw, i, gap, t, rest);
    SkipGap(raw, i, gap);
    CutHere(raw, p, t, rest);
  }

  lemma AfterText(raw: string, i: nat, gap: string, t: string, rest: string)
    requires i <= |raw| && raw[i..] == gap + (t + rest)
    ensures |gap| + |t| <= |raw| - i && raw[i + |gap|..] == t + rest && raw[i + |gap| + |t|..] == rest
  {
    DropDrop(raw, i, gap, t + rest);
    DropDrop(raw, i + |gap|, t, rest);
  }

  lemma CutHere(raw: string, p: nat, t: string, rest: string)
    requires p <= |raw| && raw[p..] == t + rest
    requires t != "" && IsOpening(t[0]) && Closes(KindOf(t[0]), t + rest, |t|)
    ensures p + |t| <= |raw| && TextsFrom(raw, p) == [t] + TextsFrom(raw, p + |t|)
  {
    assert raw[p] == raw[p..][0] == t[0];
    ExtractClosed(raw, p, |t|);
    TextsCons(raw, Segment(p, p + |t|), Extract(raw, p + |t|));
    CutIs(raw, p, t, rest);
  }

  lemma CutIs(raw: string, p: nat, t: string, rest: string)
    requires p <= |raw| && raw[p..] == t + rest
    ensures p + |t| <= |raw| && Cut(raw, Segment(p, p + |t|)) == t
  {
    assert raw[p..p + |t|] == raw[p..][..|t|];
  }

  lemma DropDrop(raw: string, i: nat, a: string, b: string)
    requires i <= |raw| && raw[i..] == a + b
    ensures i + |a| <= |raw| && raw[i + |a|..] == b
  {
    assert raw[i + |a|..] == raw[i..][|a|..];
  }

  lemma SkipGap(raw: string, i: nat, gap: string)
    requires i <= |raw| && NoOpening(gap) && gap <= raw[i..]
    ensures Extract(raw, i) == Extract(raw, i + |gap|)
  {
    forall q | i <= q < i + |gap| ensures !IsOpening(raw[q]) {
      assert raw[q] == raw[i..][q - i] == gap[q - i];
    }
    ExtractSkips(raw, i, i + |gap|);
  }

  lemma ValidParts(gaps: seq<string>, docs: seq<Json>)
    requires ValidAnswer(gaps, docs)
    ensures NoOpening(gaps[0])
    ensures docs != [] ==> Valid(docs[0]) && IsComposite(docs[0]) && ValidAnswer(gaps[1..], docs[1..])
  {
    assert gaps[0] in gaps;
    assert docs != [] ==> docs[0] in docs;
  }

  lemma FirstPart(gaps: seq<string>, docs: seq<Json>)
    requires docs != [] && |gaps| == |docs| + 1
    ensures Interleaved(gaps, docs) == gaps[0] + (TextOf(docs[0]) + Interleaved(gaps[1..], docs[1..]))
  {}

  lemma LastGap(raw: string, i: nat, gap: string)
    requires i <= |raw| && NoOpening(gap) && raw[i..] == gap
    ensures TextsFrom(raw, i) == []
  {
    SkipGap(raw, i, gap);
  }

  /** One gap and one document further. */
  lemma OneDoc(raw: string, i: nat, gaps: seq<string>, docs: seq<Json>)
    requires i <= |raw| && docs != [] && ValidAnswer(gaps, docs) && raw[i..] == Interleaved(gaps, docs)
    ensures var next := i + |gaps[0]| + |TextOf(docs[0])|;
      && next <= |raw| && raw[next..] == Interleaved(gaps[1..], docs[1..])
      && TextsFrom(raw, i) == [TextOf(docs[0])] + TextsFrom(raw, next)
  {
    var t, rest := TextOf(docs[0]), Interleaved(gaps[1..], docs[1..]);
    ValidParts(gaps, docs);
    CompositeCloses(docs[0], rest);
    FirstPart(gaps, docs);
    CutNext(raw, i, gaps[0], t, rest);
  }

  lemma {:induction false} RoundTripFrom(raw: string, i: nat, gaps: seq<string>, docs: seq<Json>)
    requires i <= |raw| && ValidAnswer(gaps, docs) && raw[i..] == Interleaved(gaps, docs)
    ensures TextsFrom(raw, i) == DocTexts(docs)
    decreases |docs|
  {
    ValidParts(gaps, docs);
    if docs == [] {
      LastGap(raw, i, gaps[0]);
    } else {
      var next := i + |gaps[0]| + |TextOf(docs[0])|;
      OneDoc(raw, i, gaps, docs);
      RoundTripFrom(raw, next, gaps[1..], docs[1..]);
      assert DocTexts(docs) == [TextOf(docs[0])] + DocTexts(docs[1..]);
    }
  }

  /** The scanner cuts out exactly the printed objects and arrays, in order. */
  lemma ScannerRoundTrip(gaps: seq<string>, docs: seq<Json>)
    requires ValidAnswer(gaps, docs)
    ensures TextsFrom(Interleaved(gaps, docs), 0) == DocTexts(docs)
  {
    var raw := Interleaved(gaps, docs);
    assert raw[0..] == raw;
    RoundTripFrom(raw, 0, gaps, docs);
  }

  lemma {:induction false} DecodedValues(loads: Decoder, docs: seq<Json>, vs: seq<Value>)
    requires |docs| == |vs|
    requires forall n :: 0 <= n < |docs| ==> Load(loads, TextOf(docs[n])) == Loaded(vs[n])
    ensures Values(loads, DocTexts(docs)) == vs && !SomeRaises(loads, DocTexts(docs))
  {
    if docs != [] {
      DecodedValues(loads, docs[1..], vs[1..]);
      RaisesFirst(loads, TextOf(docs[0]), DocTexts(docs[1..]));
      assert vs == [vs[0]] + vs[1..];
    }
  }

  /**
   * With a decoder that reads each printed text as its value, the text yields those values: by
   * ParseResponse's contract it then returns their flattened findings in document order and the
   * last summary among them.
   */
  lemma PrintedAnswerYields(gaps: seq<string>, docs: seq<Json>, vs: seq<Value>, loads: Decoder)
    requires ValidAnswer(gaps, docs) && |docs| == |vs|
    requires forall n :: 0 <= n < |docs| ==> Load(loads, TextOf(docs[n])) == Loaded(vs[n])
    ensures Yield(loads, Interleaved(gaps, docs)) == vs
    ensures !SomeRaises(loads, TextsFrom(Interleaved(gaps, docs), 0))
  {
    ScannerRoundTrip(gaps, docs);
    DecodedValues(loads, docs, vs);
  }

  // ---------- One number that loses everything ----------

  lemma {:induction false} DocTextsMember(docs: seq<Json>, n: nat)
    requires n < |docs|
    ensures TextOf(docs[n]) in DocTexts(docs)
  {
    if n > 0 {
      DocTextsMember(docs[1..], n - 1);
    }
  }

  /** Wherever it stands, one printed document that raises makes the whole scan raise. */
  lemma OneDocumentRaises(gaps: seq<string>, docs: seq<Json>, n: nat, loads: Decoder)
    requires ValidAnswer(gaps, docs) && n < |docs| && Load(loads, TextOf(docs[n])).Raises?
    ensures SomeRaises(loads, TextsFrom(Interleaved(gaps, docs), 0))
  {
    ScannerRoundTrip(gaps, docs);
    DocTextsMember(docs, n);
  }

  /** The array that holds one integer of n nines. */
  function LongInteger(n: nat): Json { Arr("", Elem("", Scalar(seq(n, _ => '9')), "", NoElems)) }

  /** {"title":1} */
  const FINDING := Obj("", Member("", [Plain('t'), Plain('i'), Plain('t'), Plain('l'), Plain('e')], "", "",
                                  Scalar("1"), "", NoMembers))

  lemma FindingIsValid(n: nat)
    ensures ValidAnswer(["", ""], [FINDING]) && ValidAnswer(["", " ", ""], [FINDING, LongInteger(n)])
  {
    assert Valid(FINDING) && Valid(LongInteger(n));
  }

  lemma FindingAlone(loads: Decoder, d: Fields)
    requires Load(loads, TextOf(FINDING)) == Loaded(Dict(d)) && d == map["title" := Number(1.0)]
    ensures var good := Interleaved(["", ""], [FINDING]);
      !SomeRaises(loads, TextsFrom(good, 0)) && Findings(LeavesOf(Yield(loads, good))) == [d]
  {
    FindingIsValid(0);
    PrintedAnswerYields(["", ""], [FINDING], [Dict(d)], loads);
    assert LeavesOf([Dict(d)]) == [d] && Findings([d]) == [d];
  }

  /**
   * A finding, then an integer over the digit limit: without the integer the finding is returned,
   * with it the scan raises and the finding is lost.
   */
  lemma LongIntegerLosesFindings(loads: Decoder, d: Fields)
    requires Load(loads, TextOf(FINDING)) == Loaded(Dict(d)) && d == map["title" := Number(1.0)]
    requires Load(loads, TextOf(LongInteger(4301))).Raises?
    ensures var good, bad := Interleaved(["", ""], [FINDING]), Interleaved(["", " ", ""], [FINDING, LongInteger(4301)]);
      && !SomeRaises(loads, TextsFrom(good, 0)) && Findings(LeavesOf(Yield(loads, good))) == [d]
      && SomeRaises(loads, TextsFrom(bad, 0))
  {
    FindingAlone(loads, d);
    FindingIsValid(4301);
    OneDocumentRaises(["", " ", ""], [FINDING, LongInteger(4301)], 1, loads);
  }
}
