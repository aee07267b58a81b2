/** _parse_requirements: the packages that a trainer's source declares. */
module Requirements {
  import opened Options

  // ---------- Python's str.isspace, strip and splitlines ----------

  predicate IsSpace(c: char) {
    var n := c as int;
    || 9 <= n <= 13 || 28 <= n <= 32 || n == 0x85 || n == 0xA0 || n == 0x1680
    || 0x2000 <= n <= 0x200A || n == 0x2028 || n == 0x2029 || n == 0x202F || n == 0x205F || n == 0x3000
  }

  predicate IsLineBreak(c: char) {
    var n := c as int;
    10 <= n <= 13 || 28 <= n <= 30 || n == 0x85 || n == 0x2028 || n == 0x2029
  }

  function SkipSpaces(s: string): (r: string)
    ensures |r| <= |s| && (r == [] || !IsSpace(r[0]))
  {
    if s != [] && IsSpace(s[0]) then SkipSpaces(s[1..]) else s
  }

  function DropTrailing(s: string): (r: string)
    ensures r <= s && (r == [] || !IsSpace(r[|r| - 1]))
  {
    if s != [] && IsSpace(s[|s| - 1]) then DropTrailing(s[..|s| - 1]) else s
  }

  function Strip(s: string): string { DropTrailing(SkipSpaces(s)) }

  /** Length of the first line of s, without its line break. */
  function LineLength(s: string): (n: nat)
    ensures n <= |s| && (n < |s| ==> IsLineBreak(s[n]))
    ensures forall i :: 0 <= i < n ==> !IsLineBreak(s[i])
  {
    if s == [] || IsLineBreak(s[0]) then 0 else 1 + LineLength(s[1..])
  }

  function SplitLines(s: string): seq<string>
    decreases |s|
  {
    var n := LineLength(s);
    if s == [] then []
    else if n == |s| then [s]
    else if s[n] == '\r' && n + 1 < |s| && s[n + 1] == '\n' then [s[..n]] + SplitLines(s[n + 2..])
    else [s[..n]] + SplitLines(s[n + 1..])
  }

  // ---------- The header: #\s*[Rr]equirements?\s*:\s*(.+) ----------

  const STEM := "equirement"

  function Literal(p: string, s: string): Option<string> {
    if p <= s then Some(s[|p|..]) else None
  }

  /** The part s?\s*:\s*(.+) of the pattern. */
  function MatchColon(s: string): Option<string> {
    var afterWord := SkipSpaces(if s != [] && s[0] == 's' then s[1..] else s);
    if afterWord == [] || afterWord[0] != ':' then None
    else
      var names := SkipSpaces(afterWord[1..]);
      if names == [] then None else Some(names)
  }

  function MatchWord(s: string): Option<string> {
    if s == [] || (s[0] != 'R' && s[0] != 'r') then None
    else match Literal(STEM, s[1..])
      case None => None
      case Some(rest) => MatchColon(rest)
  }

  function MatchHeader(stripped: string): Option<string> {
    if stripped == [] || stripped[0] != '#' then None else MatchWord(SkipSpaces(stripped[1..]))
  }

  // ---------- Splitting the names ----------

  function CommaIndex(s: string): (n: nat)
    ensures n <= |s| && (n < |s| ==> s[n] == ',')
    ensures forall i :: 0 <= i < n ==> s[i] != ','
  {
    if s == [] || s[0] == ',' then 0 else 1 + CommaIndex(s[1..])
  }

  function SplitCommas(s: string): seq<string>
    decreases |s|
  {
    var n := CommaIndex(s);
    if n == |s| then [s] else [s[..n]] + SplitCommas(s[n + 1..])
  }

  function StrippedNonEmpty(parts: seq<string>): seq<string> {
    if parts == [] then []
    else (if Strip(parts[0]) != [] then [Strip(parts[0])] else []) + StrippedNonEmpty(parts[1..])
  }

  /** The names of the first matching comment line before any other code. */
  function HeaderNames(lines: seq<string>): seq<string> {
    if lines == [] then []
    else
      var stripped := Strip(lines[0]);
      if stripped == [] then HeaderNames(lines[1..])
      else if stripped[0] != '#' then []
      else match MatchHeader(stripped)
        case Some(names) => StrippedNonEmpty(SplitCommas(names))
        case None => HeaderNames(lines[1..])
  }

  /** classAttribute: the string constants of a class's requirements list, as the AST walk finds them. */
  function Declared(source: string, classAttribute: seq<string>): seq<string> {
    var names := HeaderNames(SplitLines(source));
    if names == [] then classAttribute else names
  }

  /** Later duplicates dropped, order of first occurrences kept. */
  function Dedup(s: seq<string>): seq<string> {
    if s == [] then []
    else
      var rest := s[..|s| - 1];
      Dedup(rest) + (if s[|s| - 1] in rest then [] else [s[|s| - 1]])
  }

  lemma {:induction false} DedupElements(s: seq<string>, x: string)
    ensures x in Dedup(s) <==> x in s
  {
    if s != [] {
      DedupElements(s[..|s| - 1], x);
      assert s == s[..|s| - 1] + [s[|s| - 1]];
    }
  }

  ghost predicate FirstAt(s: seq<string>, x: string, n: nat) { n < |s| && s[n] == x && x !in s[..n] }

  /** The deduplicated names stand in the order in which they first occur: hence no two are equal. */
  lemma {:induction false} DedupOrder(s: seq<string>, i: nat, j: nat) returns (m: nat, n: nat)
    requires i < j < |Dedup(s)|
    ensures m < n && FirstAt(s, Dedup(s)[i], m) && FirstAt(s, Dedup(s)[j], n)
  {
    var rest := s[..|s| - 1];
    if j < |Dedup(rest)| {
      m, n := DedupOrder(rest, i, j);
      assert s[..m] == rest[..m] && s[..n] == rest[..n];
    } else {
      n := |s| - 1;
      m := FirstOccurrence(rest, Dedup(s)[i], i);
      assert s[..m] == rest[..m];
    }
  }

  lemma {:induction false} FirstOccurrence(s: seq<string>, x: string, i: nat) returns (m: nat)
    requires i < |Dedup(s)| && Dedup(s)[i] == x
    ensures FirstAt(s, x, m)
  {
    var rest := s[..|s| - 1];
    if i < |Dedup(rest)| {
      m := FirstOccurrence(rest, x, i);
      assert s[..m] == rest[..m];
    } else {
      m := |s| - 1;
    }
  }

  method ParseRequirements(source: string, classAttribute: seq<string>) returns (result: seq<string>)
    ensures result == Dedup(Declared(source, classAttribute))
  {
    var pkgs: seq<string> := [];
    var lines := SplitLines(source);
    var i := 0;
    while i < |lines|
      invariant i <= |lines| && pkgs == []
      invariant HeaderNames(lines) == HeaderNames(lines[i..])
    {
      var stripped := Strip(lines[i]);
      assert lines[i..][1..] == lines[i + 1..];
      i := i + 1;
      if stripped == "" {
        continue;
      }
      if stripped[0] != '#' {
        break;
      }
      var m := MatchHeader(stripped);
      if m.Some? {
        pkgs := StrippedNonEmpty(SplitCommas(m.value));
        break;
      }
    }
    assert pkgs == HeaderNames(lines);
    if pkgs == [] {
      pkgs := classAttribute;
    }
    result := WithoutRepeats(pkgs);
  }

  /** The last loop: keep what has not been seen. */
  method WithoutRepeats(pkgs: seq<string>) returns (result: seq<string>)
    ensures result == Dedup(pkgs)
  {
    var seen: set<string> := {};
    result := [];
    for n := 0 to |pkgs|
      invariant result == Dedup(pkgs[..n])
      invariant forall x :: x in seen <==> x in pkgs[..n]
    {
      var p := pkgs[n];
      assert pkgs[..n + 1][..n] == pkgs[..n];
      if p !in seen {
        seen := seen + {p};
        result := result + [p];
      }
    }
    assert pkgs[..|pkgs|] == pkgs;
  }

  // ---------- The round trip ----------

  function Joined(names: seq<string>): string
    requires names != []
  {
    if |names| == 1 then names[0] else names[0] + ", " + Joined(names[1..])
  }

  /** "s: ..." */
  function Colon(j: string): string { "s" + (":" + (" " + j)) }

  /** "Requirements: ..." */
  function Word(j: string): string { "R" + (STEM + Colon(j)) }

  /** "# Requirements: a, b, ..." */
  function Header(names: seq<string>): string
    requires names != []
  {
    "#" + (" " + Word(Joined(names)))
  }

  /** Non-empty, trimmed, on one line, without a comma. */
  predicate IsName(s: string) {
    && s != [] && !IsSpace(s[0]) && !IsSpace(s[|s| - 1])
    && forall c :: c in s ==> c != ',' && !IsLineBreak(c)
  }

  predicate AreNames(names: seq<string>) { forall x :: x in names ==> IsName(x) }

  lemma {:induction false} JoinedFacts(names: seq<string>)
    requires names != [] && AreNames(names)
    ensures var j := Joined(names); j != [] && !IsSpace(j[0]) && !IsSpace(j[|j| - 1])
    ensures forall c :: c in Joined(names) ==> !IsLineBreak(c)
  {
    assert IsName(names[0]);
    if |names| > 1 {
      JoinedFacts(names[1..]);
      assert forall c :: c in ", " ==> !IsLineBreak(c);
    }
  }

  lemma StripName(s: string)
    requires IsName(s)
    ensures Strip(s) == s && Strip(" " + s) == s
  {
    assert (" " + s)[1..] == s;
    assert IsSpace(' ');
  }

  lemma {:induction false} CommaSplits(a: string, b: string)
    requires forall c :: c in a ==> c != ','
    ensures SplitCommas(a + "," + b) == [a] + SplitCommas(b)
  {
    var s := a + "," + b;
    assert s[|a|] == ',';
    assert forall i :: 0 <= i < |a| ==> s[i] == a[i] && a[i] in a;
    assert CommaIndex(s) == |a|;
    assert s[..|a|] == a && s[|a| + 1..] == b;
  }

  lemma NoCommaOnePart(a: string)
    requires forall c :: c in a ==> c != ','
    ensures SplitCommas(a) == [a]
  {
    assert forall i :: 0 <= i < |a| ==> a[i] in a;
  }

  lemma KeepsName(part: string, name: string, more: seq<string>)
    requires IsName(name) && Strip(part) == name
    ensures StrippedNonEmpty([part] + more) == [name] + StrippedNonEmpty(more)
  {
    assert ([part] + more)[1..] == more;
  }

  /** One name, with or without the blank after a comma, and the names behind it. */
  lemma SplitOne(part: string, name: string, rest: string)
    requires IsName(name) && (part == name || part == " " + name)
    ensures StrippedNonEmpty(SplitCommas(part + "," + rest)) == [name] + StrippedNonEmpty(SplitCommas(rest))
    ensures StrippedNonEmpty(SplitCommas(part)) == [name]
  {
    StripName(name);
    assert forall c :: c in part ==> c == ' ' || c in name;
    CommaSplits(part, rest);
    KeepsName(part, name, SplitCommas(rest));
    NoCommaOnePart(part);
    KeepsName(part, name, []);
    assert [part] + [] == [part];
  }

  lemma CommaBlank(a: string, b: string)
    ensures a + ", " + b == a + "," + (" " + b)
    ensures " " + (a + ", " + b) == (" " + a) + "," + (" " + b)
  {
    assert ", " == "," + " ";
  }

  lemma {:induction false} SplitJoined(names: seq<string>, blank: bool)
    requires names != [] && AreNames(names)
    ensures StrippedNonEmpty(SplitCommas(if blank then " " + Joined(names) else Joined(names))) == names
    decreases |names|
  {
    var name := names[0];
    var part := if blank then " " + name else name;
    assert IsName(name);
    if |names| == 1 {
      SplitOne(part, name, "");
      assert names == [name];
    } else {
      var rest := " " + Joined(names[1..]);
      SplitOne(part, name, rest);
      SplitJoined(names[1..], true);
      CommaBlank(name, Joined(names[1..]));
      assert names == [name] + names[1..];
    }
  }

  lemma SkipOne(s: string)
    requires s == [] || !IsSpace(s[0])
    ensures SkipSpaces(" " + s) == s && SkipSpaces(s) == s
  {
    assert (" " + s)[1..] == s;
  }

  lemma HeadTail(c: char, s: string)
    ensures ([c] + s)[0] == c && ([c] + s)[1..] == s
  {}

  lemma LiteralMatches(p: string, s: string)
    ensures Literal(p, p + s) == Some(s)
  {
    assert (p + s)[|p|..] == s;
  }

  lemma LastOfConcat(a: string, b: string)
    requires b != []
    ensures (a + b)[|a + b| - 1] == b[|b| - 1]
  {}

  lemma ColonMatches(j: string)
    requires j != [] && !IsSpace(j[0])
    ensures MatchColon(Colon(j)) == Some(j)
  {
    HeadTail('s', ":" + (" " + j));
    HeadTail(':', " " + j);
    SkipOne(":" + (" " + j));
    SkipOne(j);
  }

  lemma WordMatches(j: string)
    ensures MatchWord(Word(j)) == MatchColon(Colon(j))
    ensures Word(j)[0] == 'R'
  {
    HeadTail('R', STEM + Colon(j));
    LiteralMatches(STEM, Colon(j));
  }

  lemma WordEnds(j: string)
    requires j != []
    ensures Word(j) != [] && Word(j)[|Word(j)| - 1] == j[|j| - 1]
  {
    LastOfConcat("R", STEM + Colon(j));
    LastOfConcat(STEM, Colon(j));
    LastOfConcat("s", ":" + (" " + j));
    LastOfConcat(":", " " + j);
    LastOfConcat(" ", j);
  }

  lemma HashMatches(w: string)
    requires w != [] && !IsSpace(w[0]) && !IsSpace(w[|w| - 1])
    ensures MatchHeader("#" + (" " + w)) == MatchWord(w)
    ensures Strip("#" + (" " + w)) == "#" + (" " + w)
  {
    HeadTail('#', " " + w);
    SkipOne(w);
    LastOfConcat("#", " " + w);
  }

  lemma HeaderMatches(names: seq<string>)
    requires names != [] && AreNames(names)
    ensures Strip(Header(names)) == Header(names)
    ensures MatchHeader(Header(names)) == Some(Joined(names))
  {
    JoinedFacts(names);
    var j := Joined(names);
    ColonMatches(j);
    WordMatches(j);
    WordEnds(j);
    HashMatches(Word(j));
  }

  lemma FirstLine(line: string, rest: string)
    requires line != [] && forall c :: c in line ==> !IsLineBreak(c)
    requires rest == [] || IsLineBreak(rest[0])
    ensures SplitLines(line + rest) != [] && SplitLines(line + rest)[0] == line
  {
    var s := line + rest;
    assert forall i :: 0 <= i < |line| ==> s[i] == line[i] && line[i] in line;
    assert rest != [] ==> s[|line|] == rest[0];
    assert LineLength(s) == |line|;
    assert s[..|line|] == line;
  }

  /** A printed header line, with anything after it, parses back to its deduplicated names. */
  lemma HeaderRoundTrip(names: seq<string>, rest: string, classAttribute: seq<string>)
    requires names != [] && AreNames(names)
    requires rest == [] || IsLineBreak(rest[0])
    ensures Dedup(Declared(Header(names) + rest, classAttribute)) == Dedup(names)
  {
    var h := Header(names);
    JoinedFacts(names);
    assert forall c :: c in STEM ==> !IsLineBreak(c);
    FirstLine(h, rest);
    HeaderMatches(names);
    SplitJoined(names, false);
  }

  // ---------- Which line counts ----------

  /** A line that the search goes past: blank, or a comment that is no header. */
  predicate Passed(line: string) {
    Strip(line) == "" || (Strip(line)[0] == '#' && MatchHeader(Strip(line)).None?)
  }

  /** Blank lines and other comments before the header do not matter. */
  lemma {:induction false} PassedLines(before: seq<string>, rest: seq<string>)
    requires forall line :: line in before ==> Passed(line)
    ensures HeaderNames(before + rest) == HeaderNames(rest)
    decreases |before|
  {
    if before == [] {
      assert before + rest == rest;
    } else {
      assert before[0] in before && (before + rest)[1..] == before[1..] + rest;
      assert forall line :: line in before[1..] ==> line in before;
      PassedLines(before[1..], rest);
    }
  }

  /** A header below a line of code is not found; the class attribute is used. */
  lemma CodeEndsTheSearch(before: seq<string>, code: string, rest: seq<string>)
    requires forall line :: line in before ==> Passed(line)
    requires Strip(code) != "" && Strip(code)[0] != '#'
    ensures HeaderNames(before + ([code] + rest)) == []
  {
    PassedLines(before, [code] + rest);
  }

  /** A header names its packages, wherever it stands among lines that are passed. */
  lemma HeaderAmongLines(before: seq<string>, names: seq<string>, rest: seq<string>)
    requires forall line :: line in before ==> Passed(line)
    requires names != [] && AreNames(names)
    ensures HeaderNames(before + ([Header(names)] + rest)) == names
  {
    PassedLines(before, [Header(names)] + rest);
    HeaderMatches(names);
    SplitJoined(names, false);
  }

  /** The class attribute counts exactly if the header names nothing. */
  lemma AttributeWhen(source: string, classAttribute: seq<string>)
    ensures HeaderNames(SplitLines(source)) == [] ==> Declared(source, classAttribute) == classAttribute
    ensures HeaderNames(SplitLines(source)) != [] ==>
      Declared(source, classAttribute) == HeaderNames(SplitLines(source))
  {}

  // ---------- The pattern of the header ----------

  predicate AllSpaces(s: string) { forall c :: c in s ==> IsSpace(c) }

  lemma {:induction false} SkipsSpaces(spaces: string, s: string)
    requires AllSpaces(spaces) && (s == "" || !IsSpace(s[0]))
    ensures SkipSpaces(spaces + s) == s
    decreases |spaces|
  {
    if spaces == "" {
      assert spaces + s == s;
    } else {
      assert spaces[0] in spaces && (spaces + s)[1..] == spaces[1..] + s;
      assert forall c :: c in spaces[1..] ==> c in spaces;
      SkipsSpaces(spaces[1..], s);
    }
  }

  lemma {:induction false} SpacesSkipped(s: string) returns (spaces: string)
    ensures AllSpaces(spaces) && s == spaces + SkipSpaces(s)
  {
    spaces := "";
    if s != "" && IsSpace(s[0]) {
      var rest := SpacesSkipped(s[1..]);
      spaces := [s[0]] + rest;
      assert s == [s[0]] + s[1..];
    } else {
      assert "" + s == s;
    }
  }

  /** s? \s* : \s* and what is captured. */
  function Tail(plural: string, gap: string, gap': string, names: string): string {
    plural + (gap + (":" + (gap' + names)))
  }

  predicate IsTail(plural: string, gap: string, gap': string, names: string) {
    (plural == "" || plural == "s") && AllSpaces(gap) && AllSpaces(gap') && names != "" && !IsSpace(names[0])
  }

  lemma TailMatches(plural: string, gap: string, gap': string, names: string)
    requires IsTail(plural, gap, gap', names)
    ensures MatchColon(Tail(plural, gap, gap', names)) == Some(names)
  {
    var colon := ":" + (gap' + names);
    SkipsSpaces(gap, colon);
    SkipsSpaces(gap', names);
    HeadTail(':', gap' + names);
    if plural == "s" {
      HeadTail('s', gap + colon);
    } else {
      assert "" + (gap + colon) == gap + colon;
      NoSInGap(gap, colon);
    }
  }

  lemma NoSInGap(gap: string, colon: string)
    requires AllSpaces(gap) && colon != "" && colon[0] == ':'
    ensures (gap + colon)[0] != 's'
  {
    if gap != "" {
      assert gap[0] in gap;
    }
  }

  lemma ColonParts(word: string) returns (gap: string, gap': string, names: string)
    requires SkipSpaces(word) != "" && SkipSpaces(word)[0] == ':' && SkipSpaces(SkipSpaces(word)[1..]) != ""
    ensures AllSpaces(gap) && AllSpaces(gap') && names != "" && !IsSpace(names[0])
    ensures word == gap + (":" + (gap' + names)) && names == SkipSpaces(SkipSpaces(word)[1..])
  {
    gap := SpacesSkipped(word);
    var colon := SkipSpaces(word);
    gap' := SpacesSkipped(colon[1..]);
    names := SkipSpaces(colon[1..]);
    assert colon == ":" + colon[1..];
  }

  lemma TailParts(s: string) returns (plural: string, gap: string, gap': string, names: string)
    requires MatchColon(s).Some?
    ensures IsTail(plural, gap, gap', names) && s == Tail(plural, gap, gap', names) && MatchColon(s) == Some(names)
  {
    if s != [] && s[0] == 's' {
      plural := "s";
      gap, gap', names := ColonParts(s[1..]);
      assert s == "s" + s[1..];
    } else {
      plural := "";
      gap, gap', names := ColonParts(s);
      assert s == "" + s;
    }
  }

  /**
   * What is a header line: a hash, spaces, "requirement" with a small or capital r, perhaps an s,
   * spaces, a colon, spaces, and the names.
   */
  function HeaderLine(gap: string, r: char, tail: string): string { "#" + (gap + ([r] + ("equirement" + tail))) }

  lemma HeaderLineMatches(gap: string, r: char, plural: string, gap': string, gap'': string, names: string)
    requires AllSpaces(gap) && (r == 'R' || r == 'r') && IsTail(plural, gap', gap'', names)
    ensures MatchHeader(HeaderLine(gap, r, Tail(plural, gap', gap'', names))) == Some(names)
  {
    var tail := Tail(plural, gap', gap'', names);
    var word := [r] + ("equirement" + tail);
    HeadTail('#', gap + word);
    SkipsSpaces(gap, word);
    HeadTail(r, "equirement" + tail);
    LiteralMatches("equirement", tail);
    TailMatches(plural, gap', gap'', names);
  }

  lemma WordParts(word: string) returns (r: char, tail: string)
    requires MatchWord(word).Some?
    ensures (r == 'R' || r == 'r') && word == [r] + ("equirement" + tail) && MatchColon(tail) == MatchWord(word)
  {
    r, tail := word[0], word[1..][|STEM|..];
    assert word[1..] == STEM + tail;
    assert word == [r] + word[1..];
  }

  lemma HeaderLineParts(s: string)
    returns (gap: string, r: char, plural: string, gap': string, gap'': string, names: string)
    requires MatchHeader(s).Some?
    ensures AllSpaces(gap) && (r == 'R' || r == 'r') && IsTail(plural, gap', gap'', names)
    ensures s == HeaderLine(gap, r, Tail(plural, gap', gap'', names)) && MatchHeader(s) == Some(names)
  {
    gap := SpacesSkipped(s[1..]);
    var tail;
    r, tail := WordParts(SkipSpaces(s[1..]));
    plural, gap', gap'', names := TailParts(tail);
    FirstChar(s);
  }

  lemma FirstChar(s: string)
    requires s != ""
    ensures s == [s[0]] + s[1..]
  {}

  lemma {:induction false} NamesConcat(a: seq<string>, b: seq<string>)
    ensures StrippedNonEmpty(a + b) == StrippedNonEmpty(a) + StrippedNonEmpty(b)
    decreases |a|
  {
    if a == [] {
      assert a + b == b;
    } else {
      assert (a + b)[1..] == a[1..] + b;
      NamesConcat(a[1..], b);
    }
  }

  /** Every part that is not blank gives its trimmed name, in its place; a blank part gives none. */
  lemma PartsGiveNames(a: seq<string>, part: string, b: seq<string>)
    ensures StrippedNonEmpty(a + [part] + b)
         == StrippedNonEmpty(a) + (if Strip(part) == "" then [] else [Strip(part)]) + StrippedNonEmpty(b)
  {
    NamesConcat(a + [part], b);
    NamesConcat(a, [part]);
    assert [part][1..] == [];
  }

  /** A trimmed string is a part of the original one, without spaces at its ends. */
  lemma StripTrims(s: string) returns (before: string, after: string)
    ensures s == before + (Strip(s) + after) && AllSpaces(before) && AllSpaces(after)
    ensures Strip(s) != "" ==> !IsSpace(Strip(s)[0]) && !IsSpace(Strip(s)[|Strip(s)| - 1])
  {
    before := SpacesSkipped(s);
    after := TrailingAreSpaces(SkipSpaces(s));
  }

  lemma {:induction false} TrailingAreSpaces(s: string) returns (after: string)
    ensures s == DropTrailing(s) + after && AllSpaces(after)
  {
    after := "";
    if s != [] && IsSpace(s[|s| - 1]) {
      var rest := TrailingAreSpaces(s[..|s| - 1]);
      after := rest + [s[|s| - 1]];
      assert s == s[..|s| - 1] + [s[|s| - 1]];
    } else {
      assert s + "" == s;
    }
  }

  /** A line break is a line feed, a carriage return or both, and the last line may lack it. */
  lemma LineBreaks(line: string, rest: string)
    requires forall c :: c in line ==> !IsLineBreak(c)
    ensures SplitLines(line) == if line == "" then [] else [line]
    ensures SplitLines(line + ("\n" + rest)) == [line] + SplitLines(rest)
    ensures SplitLines(line + ("\r\n" + rest)) == [line] + SplitLines(rest)
    ensures rest == "" || rest[0] != '\n' ==> SplitLines(line + ("\r" + rest)) == [line] + SplitLines(rest)
  {
    WholeLine(line);
    BrokenLine(line, "\n" + rest);
    BrokenLine(line, "\r\n" + rest);
    BrokenLine(line, "\r" + rest);
    assert ("\n" + rest)[1..] == rest && ("\r" + rest)[1..] == rest && ("\r\n" + rest)[2..] == rest;
  }

  lemma WholeLine(line: string)
    requires forall c :: c in line ==> !IsLineBreak(c)
    ensures LineLength(line) == |line|
  {
    assert forall i :: 0 <= i < |line| ==> line[i] in line;
  }

  lemma BrokenLine(line: string, end: string)
    requires (forall c :: c in line ==> !IsLineBreak(c)) && end != "" && IsLineBreak(end[0])
    ensures SplitLines(line + end)
         == [line] + SplitLines(if end[0] == '\r' && |end| > 1 && end[1] == '\n' then end[2..] else end[1..])
  {
    var s := line + end;
    assert forall i :: 0 <= i < |line| ==> s[i] == line[i] && line[i] in line;
    assert s[|line|] == end[0];
    assert LineLength(s) == |line|;
    assert s[..|line|] == line && s[|line| + 1..] == end[1..];
    if |end| > 1 {
      assert s[|line| + 1] == end[1] && s[|line| + 2..] == end[2..];
    }
  }

  /** Among ASCII characters: the blank, the control characters 9 to 13 and 28 to 31. */
  lemma AsciiSpaces(c: char)
    requires c as int < 128
    ensures IsSpace(c) <==> c == ' ' || 9 <= c as int <= 13 || 28 <= c as int <= 31
    ensures IsLineBreak(c) <==> 10 <= c as int <= 13 || 28 <= c as int <= 30
  {}
}
