/**
 The text of a maintenance hold: one printer, three parsers, and the flag file that
 carries it. A hold set automatically across a restart is told from an operator's
 by a marker in the text.
 */
module HoldText {
  import opened Wrappers

  // ------------------------------------------------ the string functions of Python

  /** What `str.strip` removes. */
  predicate IsSpace(c: char) {
    || '\t' <= c <= '\r' || '\U{1c}' <= c <= ' ' || c == '\U{85}' || c == '\U{a0}' || c == '\U{1680}'
    || '\U{2000}' <= c <= '\U{200a}' || c == '\U{2028}' || c == '\U{2029}' || c == '\U{202f}' || c == '\U{205f}'
    || c == '\U{3000}'
  }

  /** Where `str.splitlines` ends a line. */
  predicate IsBreak(c: char) {
    '\n' <= c <= '\r' || '\U{1c}' <= c <= '\U{1e}' || c == '\U{85}' || c == '\U{2028}' || c == '\U{2029}'
  }

  function LStrip(s: string): (r: string)
    ensures |r| <= |s| && (r != "" ==> !IsSpace(r[0]) && r[|r| - 1] == s[|s| - 1])
    ensures s != "" && !IsSpace(s[0]) ==> r == s
    ensures r == "" <==> forall c :: c in s ==> IsSpace(c)
  {
    if s != "" && IsSpace(s[0]) then LStrip(s[1..]) else s
  }

  function RStrip(s: string): (r: string)
    ensures r <= s && (r != "" ==> !IsSpace(r[|r| - 1]))
    ensures s != "" && !IsSpace(s[|s| - 1]) ==> r == s
    ensures r == "" <==> forall c :: c in s ==> IsSpace(c)
  {
    if s != "" && IsSpace(s[|s| - 1]) then RStrip(s[..|s| - 1]) else s
  }

  /** No space at either end is left. */
  function Strip(s: string): (r: string)
    ensures r != "" ==> !IsSpace(r[0]) && !IsSpace(r[|r| - 1])
    ensures (s == "" || (!IsSpace(s[0]) && !IsSpace(s[|s| - 1]))) ==> r == s
    ensures r == "" <==> forall c :: c in s ==> IsSpace(c)
    ensures |r| <= |s|
  {
    LStrip(RStrip(s))
  }

  lemma {:induction false} LStripExactly(s: string) returns (i: nat)
    ensures i <= |s| && LStrip(s) == s[i..] && forall k :: 0 <= k < i ==> IsSpace(s[k])
  {
    if s != "" && IsSpace(s[0]) {
      var rest := LStripExactly(s[1..]);
      i := rest + 1;
      assert s[1..][rest..] == s[i..];
      assert forall k :: 1 <= k < i ==> s[k] == s[1..][k - 1];
    } else {
      i := 0;
    }
  }

  lemma {:induction false} RStripExactly(s: string) returns (j: nat)
    ensures j <= |s| && RStrip(s) == s[..j] && forall k :: j <= k < |s| ==> IsSpace(s[k])
  {
    if s != "" && IsSpace(s[|s| - 1]) {
      j := RStripExactly(s[..|s| - 1]);
      assert s[..|s| - 1][..j] == s[..j];
    } else {
      j := |s|;
    }
  }

  /** What is left is a stretch of the text, and all that is gone is spaces. */
  lemma StripExactly(s: string) returns (i: nat, j: nat)
    ensures i <= j <= |s| && Strip(s) == s[i..j]
    ensures forall k :: 0 <= k < i || j <= k < |s| ==> IsSpace(s[k])
  {
    j := RStripExactly(s);
    i := LStripExactly(s[..j]);
    assert s[..j][i..] == s[i..j];
    assert forall k :: 0 <= k < i ==> s[..j][k] == s[k];
  }

  function FirstBreak(s: string): (i: nat)
    ensures i <= |s| && (forall k :: 0 <= k < i ==> !IsBreak(s[k])) && (i < |s| ==> IsBreak(s[i]))
  {
    if s == "" || IsBreak(s[0]) then 0 else 1 + FirstBreak(s[1..])
  }

  /** Where the line after the one ending at `i` begins: CR LF is one break. */
  function NextLine(s: string, i: nat): (k: nat)
    requires i < |s|
    ensures i < k <= |s|
  {
    if s[i] == '\r' && i + 1 < |s| && s[i + 1] == '\n' then i + 2 else i + 1
  }

  function SplitLines(s: string): seq<string>
    decreases |s|
  {
    if s == "" then []
    else
      var i := FirstBreak(s);
      if i == |s| then [s] else [s[..i]] + SplitLines(s[NextLine(s, i)..])
  }

  /** `"\n".join(lines)`. */
  function JoinLines(lines: seq<string>): string {
    if lines == [] then "" else if |lines| == 1 then lines[0] else lines[0] + "\n" + JoinLines(lines[1..])
  }

  // ------------------------------------------------------ the printer and parsers

  const ORIGIN_PREFIX := "origin:"
  const EXPIRES_PREFIX := "expires:"

  predicate StartsWith(line: string, prefix: string) {
    prefix <= Strip(line)
  }

  predicate Structured(line: string) {
    StartsWith(line, ORIGIN_PREFIX) || StartsWith(line, EXPIRES_PREFIX)
  }

  predicate Given(field: Option<string>) { field.Some? && field.value != "" }

  function FieldLines(prefix: string, field: Option<string>): seq<string> {
    if Given(field) then [prefix + " " + field.value] else []
  }

  function HoldLines(reason: string, origin: Option<string>, expires: Option<string>): seq<string> {
    (if Strip(reason) != "" then [Strip(reason)] else [])
    + FieldLines(ORIGIN_PREFIX, origin) + FieldLines(EXPIRES_PREFIX, expires)
  }

  function HoldBody(reason: string, origin: Option<string>, expires: Option<string>): string {
    JoinLines(HoldLines(reason, origin, expires)) + "\n"
  }

  /** The text line by line: the stripped reason, the origin, the deadline, each where
      given, and a single newline when nothing is. */
  lemma BodyFormat(reason: string, origin: Option<string>, expires: Option<string>)
    ensures var first := if Strip(reason) == "" then "" else Strip(reason) + "\n";
            var second := if origin in {None, Some("")} then "" else "origin: " + origin.value + "\n";
            var third := if expires in {None, Some("")} then "" else "expires: " + expires.value + "\n";
            HoldBody(reason, origin, expires)
            == if first + second + third == "" then "\n" else first + second + third
  {
    var r := if Strip(reason) != "" then [Strip(reason)] else [];
    var o, e := FieldLines(ORIGIN_PREFIX, origin), FieldLines(EXPIRES_PREFIX, expires);
    EndedAppend(r + o, e);
    EndedAppend(r, o);
    if r + o + e != [] { JoinIsEnded(r + o + e); }
    if e != [] { EndedOne(e); }
    if o != [] { EndedOne(o); }
    if r != [] { EndedOne(r); }
    assert ORIGIN_PREFIX + " " == "origin: " && EXPIRES_PREFIX + " " == "expires: ";
  }

  /** Every line with a newline after it. */
  function EachEnded(lines: seq<string>): string {
    if lines == [] then "" else lines[0] + "\n" + EachEnded(lines[1..])
  }

  lemma EndedOne(lines: seq<string>)
    requires |lines| == 1
    ensures EachEnded(lines) == lines[0] + "\n"
  {
    assert lines[1..] == [];
  }

  lemma {:induction false} EndedAppend(a: seq<string>, b: seq<string>)
    ensures EachEnded(a + b) == EachEnded(a) + EachEnded(b)
  {
    if a == [] {
      assert a + b == b;
    } else {
      assert (a + b)[1..] == a[1..] + b;
      EndedAppend(a[1..], b);
    }
  }

  lemma {:induction false} JoinIsEnded(lines: seq<string>)
    requires lines != []
    ensures JoinLines(lines) + "\n" == EachEnded(lines)
  {
    if |lines| == 1 {
      EndedOne(lines);
    } else {
      JoinIsEnded(lines[1..]);
      assert lines[0] + "\n" + JoinLines(lines[1..]) + "\n" == lines[0] + "\n" + (JoinLines(lines[1..]) + "\n");
    }
  }

  /** The value of the first line with this prefix; a blank one is none. */
  function FirstField(lines: seq<string>, prefix: string): Option<string> {
    if lines == [] then None
    else if StartsWith(lines[0], prefix) then
      var value := Strip(Strip(lines[0])[|prefix|..]);
      if value == "" then None else Some(value)
    else FirstField(lines[1..], prefix)
  }

  function HoldOrigin(text: string): Option<string> { FirstField(SplitLines(text), ORIGIN_PREFIX) }

  function HoldDeadline(text: string): Option<string> { FirstField(SplitLines(text), EXPIRES_PREFIX) }

  function Unstructured(lines: seq<string>): (r: seq<string>)
    ensures forall l :: l in r <==> l in lines && !Structured(l)
  {
    if lines == [] then []
    else if Structured(lines[0]) then Unstructured(lines[1..])
    else [lines[0]] + Unstructured(lines[1..])
  }

  function ReasonOf(text: string): string { Strip(JoinLines(Unstructured(SplitLines(text)))) }

  // ------------------------------------------------------------ lines and joins

  predicate SingleLine(s: string) { forall c :: c in s ==> !IsBreak(c) }

  predicate NewlineOnly(s: string) { forall c :: c in s && IsBreak(c) ==> c == '\n' }

  lemma BreaksAreSpaces(c: char)
    requires IsBreak(c)
    ensures IsSpace(c)
  {
  }

  lemma {:induction false} FirstBreakOf(a: string, b: string)
    ensures FirstBreak(a + "\n" + b) == FirstBreak(a)
  {
    if a != "" && !IsBreak(a[0]) {
      assert (a + "\n" + b)[1..] == a[1..] + "\n" + b;
      FirstBreakOf(a[1..], b);
    }
  }

  lemma SplitAtBreak(s: string, i: nat)
    requires s != "" && i == FirstBreak(s)
    ensures i == |s| ==> SplitLines(s) == [s]
    ensures i < |s| ==> SplitLines(s) == [s[..i]] + SplitLines(s[NextLine(s, i)..])
  {
  }

  /** A break ends a line, whatever follows it -- CR LF is one break, not two -- and text
      without a break is one line. */
  lemma LineByLine(a: string, c: char, b: string)
    requires SingleLine(a) && IsBreak(c) && (c == '\r' ==> b == "" || b[0] != '\n')
    ensures SplitLines(a + [c] + b) == [a] + SplitLines(b)
    ensures SplitLines(a + "\r\n" + b) == [a] + SplitLines(b)
    ensures a != "" ==> SplitLines(a) == [a]
  {
    BreakEndsLine(a, [c] + b);
    BreakEndsLine(a, "\r\n" + b);
    assert a + [c] + b == a + ([c] + b) && a + "\r\n" + b == a + ("\r\n" + b);
    assert (a + ([c] + b))[|a| + 1..] == b && (a + ("\r\n" + b))[|a| + 2..] == b;
    SplitAtBreak(a + ([c] + b), |a|);
    SplitAtBreak(a + ("\r\n" + b), |a|);
    if a != "" { SplitAtBreak(a, |a|); }
  }

  lemma BreakEndsLine(a: string, rest: string)
    requires SingleLine(a) && rest != "" && IsBreak(rest[0])
    ensures FirstBreak(a + rest) == |a| == FirstBreak(a) && (a + rest)[..|a|] == a
  {
    assert (a + rest)[|a|] == rest[0];
    assert forall k :: 0 <= k < |a| ==> (a + rest)[k] == a[k] && a[k] in a;
  }

  lemma JoinCons(line: string, rest: seq<string>)
    requires rest != []
    ensures JoinLines([line] + rest) == line + "\n" + JoinLines(rest)
  {
    assert ([line] + rest)[1..] == rest;
  }

  lemma DropKeepsTail(a: string, b: string, k: nat)
    requires k <= |a|
    ensures (a + "\n" + b)[k..] == a[k..] + "\n" + b
  {
  }

  lemma AroundNewline(s: string, i: nat)
    requires i < |s| && s[i] == '\n'
    ensures s == s[..i] + "\n" + s[i + 1..]
  {
  }

  /** A break inside text that does not end in one is followed by more of the text. */
  lemma NextLineInside(a: string, b: string, i: nat)
    requires a != "" && !IsBreak(a[|a| - 1]) && i < |a| && IsBreak(a[i])
    ensures var s, k := a + "\n" + b, NextLine(a, i);
            && k < |a| && NextLine(s, i) == k && s[..i] == a[..i]
            && a[k..] != "" && a[k..][|a[k..]| - 1] == a[|a| - 1]
  {
    var s := a + "\n" + b;
    assert i + 1 < |a| && s[i] == a[i] && s[i + 1] == a[i + 1];
  }

  lemma ThreeParts(x: seq<string>, y: seq<string>, z: seq<string>)
    ensures x + (y + z) == x + y + z
  {
  }

  /** A newline after text that does not end in a break starts a line of its own. */
  lemma {:induction false} SplitAppend(a: string, b: string)
    requires a != "" && !IsBreak(a[|a| - 1])
    ensures SplitLines(a + "\n" + b) == SplitLines(a) + SplitLines(b)
    decreases |a|
  {
    var s, i := a + "\n" + b, FirstBreak(a);
    FirstBreakOf(a, b);
    SplitAtBreak(s, i);
    SplitAtBreak(a, i);
    if i == |a| {
      assert s[..i] == a && s[i] == '\n' && s[i + 1..] == b;
    } else {
      var k := NextLine(a, i);
      NextLineInside(a, b, i);
      DropKeepsTail(a, b, k);
      SplitAppend(a[k..], b);
      ThreeParts([a[..i]], SplitLines(a[k..]), SplitLines(b));
    }
  }

  lemma {:induction false} NoBreakInSingle(line: string)
    requires SingleLine(line)
    ensures FirstBreak(line) == |line|
  {
    if line != "" {
      assert line[0] in line;
      NoBreakInSingle(line[1..]);
    }
  }

  lemma SplitSingle(line: string)
    requires SingleLine(line) && line != ""
    ensures SplitLines(line) == [line]
  {
    NoBreakInSingle(line);
  }

  lemma {:induction false} SplitLinesAreSingle(s: string)
    ensures forall l :: l in SplitLines(s) ==> SingleLine(l)
    decreases |s|
  {
    if s != "" {
      var i := FirstBreak(s);
      forall c | c in s[..i] ensures !IsBreak(c) {
        var k :| 0 <= k < i && s[k] == c;
      }
      if i < |s| { SplitLinesAreSingle(s[NextLine(s, i)..]); }
    }
  }

  lemma TailIsNewlineOnly(s: string, i: nat)
    requires NewlineOnly(s) && i <= |s|
    ensures NewlineOnly(s[i..])
  {
    forall c | c in s[i..] ensures c in s {
      assert s == s[..i] + s[i..];
    }
  }

  /** Text whose only breaks are newlines is its lines, joined. */
  lemma {:induction false} JoinSplit(s: string)
    requires NewlineOnly(s) && (s != "" ==> !IsBreak(s[|s| - 1]))
    ensures JoinLines(SplitLines(s)) == s
    ensures s != "" ==> SplitLines(s) != []
    decreases |s|
  {
    if s != "" {
      var i := FirstBreak(s);
      SplitAtBreak(s, i);
      if i < |s| {
        assert s[i] in s;
        var rest := s[i + 1..];
        assert i + 1 < |s|;
        TailIsNewlineOnly(s, i + 1);
        JoinSplit(rest);
        JoinCons(s[..i], SplitLines(rest));
        AroundNewline(s, i);
      }
    }
  }

  /** Joined lines break at newlines only. */
  lemma {:induction false} JoinIsNewlineOnly(lines: seq<string>)
    requires forall l :: l in lines ==> SingleLine(l)
    ensures NewlineOnly(JoinLines(lines))
  {
    if |lines| > 1 {
      JoinIsNewlineOnly(lines[1..]);
      assert SingleLine(lines[0]);
      var rest := JoinLines(lines[1..]);
      forall c | c in lines[0] + "\n" + rest && IsBreak(c) ensures c == '\n' {
        assert c in lines[0] || c == '\n' || c in rest;
      }
    } else if |lines| == 1 {
      assert SingleLine(lines[0]);
    }
  }

  /** Dropping lines makes the join shorter. */
  lemma {:induction false} UnstructuredIsShorter(lines: seq<string>)
    ensures |JoinLines(Unstructured(lines))| <= |JoinLines(lines)|
    ensures (exists l :: l in lines && Structured(l)) ==> |JoinLines(Unstructured(lines))| < |JoinLines(lines)|
    ensures !(exists l :: l in lines && Structured(l)) ==> Unstructured(lines) == lines
  {
    if lines != [] {
      var rest := lines[1..];
      UnstructuredIsShorter(rest);
      var kept := Unstructured(rest);
      if Structured(lines[0]) {
        StructuredIsNotEmpty(lines[0]);
        assert |JoinLines(lines)| >= |lines[0]| + |JoinLines(rest)|;
      } else {
        assert Unstructured(lines) == [lines[0]] + kept && ([lines[0]] + kept)[1..] == kept;
        assert kept == [] || rest != [];
        assert lines == [lines[0]] + rest;
      }
    }
  }

  lemma StructuredIsNotEmpty(line: string)
    requires Structured(line)
    ensures line != ""
  {
    assert |Strip(line)| > 0;
  }

  // ------------------------------------------------------------ the round trips

  lemma {:induction false} RStripAppend(a: string, b: string)
    ensures RStrip(a + b) == if RStrip(b) == "" then RStrip(a) else a + RStrip(b)
    decreases |b|
  {
    if b == "" {
      assert a + b == a;
    } else if IsSpace(b[|b| - 1]) {
      assert (a + b)[..|a + b| - 1] == a + b[..|b| - 1];
      RStripAppend(a, b[..|b| - 1]);
    }
  }

  lemma StripPrefixed(prefix: string, value: string)
    requires prefix != "" && !IsSpace(prefix[0]) && !IsSpace(prefix[|prefix| - 1])
    ensures Strip(prefix + " " + value) == if RStrip(value) == "" then prefix else prefix + " " + RStrip(value)
  {
    RStripAppend(prefix + " ", value);
    RStripAppend(prefix, " ");
    assert RStrip(" ") == "";
  }

  lemma LStripSpaced(kept: string)
    ensures LStrip(" " + kept) == LStrip(kept)
  {
    assert (" " + kept)[1..] == kept;
  }

  lemma StripSpaced(kept: string)
    requires kept != "" && !IsSpace(kept[|kept| - 1])
    ensures Strip(" " + kept) == LStrip(kept)
  {
    var s := " " + kept;
    assert s[|s| - 1] == kept[|kept| - 1];
    assert RStrip(s) == s;
    LStripSpaced(kept);
  }

  predicate Prefixes(prefix: string, other: string) {
    (prefix == ORIGIN_PREFIX && other == EXPIRES_PREFIX) || (prefix == EXPIRES_PREFIX && other == ORIGIN_PREFIX)
  }

  /** Two prefixes that no line can both begin with. */
  predicate Apart(prefix: string, other: string) {
    && 0 < |prefix| && 0 < |other| && prefix[0] != other[0]
    && !IsSpace(prefix[0]) && !IsSpace(prefix[|prefix| - 1])
  }

  lemma PrefixFacts(prefix: string, other: string)
    requires Prefixes(prefix, other)
    ensures Apart(prefix, other) && Apart(other, prefix) && SingleLine(prefix)
  {
  }

  lemma AfterPrefix(prefix: string, rest: string)
    ensures (prefix + rest)[|prefix|..] == rest
  {
  }

  /** A printed field line reads back as its stripped value. */
  lemma FieldLine(prefix: string, other: string, value: string)
    requires Apart(prefix, other)
    ensures var line := prefix + " " + value;
            && StartsWith(line, prefix) && !StartsWith(line, other)
            && Strip(Strip(line)[|prefix|..]) == Strip(value)
  {
    var line, kept := prefix + " " + value, RStrip(value);
    StripPrefixed(prefix, value);
    assert Strip(line)[0] == prefix[0];
    if kept == "" {
      AfterPrefix(prefix, "");
      assert prefix + "" == prefix;
    } else {
      AfterPrefix(prefix, " " + kept);
      assert prefix + " " + kept == prefix + (" " + kept);
      StripSpaced(kept);
    }
  }

  function SplitAll(lines: seq<string>): seq<string> {
    if lines == [] then [] else SplitLines(lines[0]) + SplitAll(lines[1..])
  }

  lemma StringParts(x: string, y: string)
    ensures x + "\n" + y + "\n" == x + "\n" + (y + "\n")
  {
  }

  lemma SplitOneMore(line: string, rest: seq<string>)
    requires line != "" && !IsBreak(line[|line| - 1])
    requires rest != [] ==> SplitLines(JoinLines(rest) + "\n") == SplitAll(rest)
    ensures SplitLines(JoinLines([line] + rest) + "\n") == SplitLines(line) + SplitAll(rest)
  {
    if rest == [] {
      assert [line] + rest == [line];
      assert line + "\n" + "" == line + "\n";
      SplitAppend(line, "");
    } else {
      JoinCons(line, rest);
      StringParts(line, JoinLines(rest));
      SplitAppend(line, JoinLines(rest) + "\n");
    }
  }

  lemma {:induction false} SplitJoined(lines: seq<string>)
    requires lines != [] && forall l :: l in lines ==> l != "" && !IsBreak(l[|l| - 1])
    ensures SplitLines(JoinLines(lines) + "\n") == SplitAll(lines)
  {
    assert lines == [lines[0]] + lines[1..];
    if |lines| > 1 {
      SplitJoined(lines[1..]);
    }
    SplitOneMore(lines[0], lines[1..]);
  }

  predicate FieldFits(field: Option<string>) { field.Some? ==> SingleLine(field.value) }

  predicate Ended(lines: seq<string>) {
    forall l :: l in lines ==> l != "" && !IsBreak(l[|l| - 1])
  }

  lemma FieldLinesSplit(prefix: string, field: Option<string>)
    requires FieldFits(field) && SingleLine(prefix)
    ensures SplitAll(FieldLines(prefix, field)) == FieldLines(prefix, field) && Ended(FieldLines(prefix, field))
  {
    if Given(field) {
      assert field.value[|field.value| - 1] in field.value;
      SplitSingle(prefix + " " + field.value);
    }
  }

  lemma {:induction false} SplitAllAppend(a: seq<string>, b: seq<string>)
    ensures SplitAll(a + b) == SplitAll(a) + SplitAll(b)
  {
    if a == [] {
      assert a + b == b;
    } else {
      assert (a + b)[1..] == a[1..] + b;
      SplitAllAppend(a[1..], b);
    }
  }

  lemma SplitParts(r: string, o: seq<string>, e: seq<string>)
    requires r != "" ==> !IsBreak(r[|r| - 1])
    requires Ended(o) && SplitAll(o) == o && Ended(e) && SplitAll(e) == e
    ensures var lines := SplitLines(r) + o + e;
            SplitLines(JoinLines((if r != "" then [r] else []) + o + e) + "\n") == if lines == [] then [""] else lines
  {
    var first := if r != "" then [r] else [];
    SplitAllAppend(first + o, e);
    SplitAllAppend(first, o);
    assert SplitAll(first) == SplitLines(r);
    if first + o + e != [] {
      SplitJoined(first + o + e);
    } else {
      assert SplitLines("\n") == [""];
    }
  }

  lemma StripEnds(s: string)
    ensures Strip(s) != "" ==> !IsBreak(Strip(s)[|Strip(s)| - 1])
  {
    if Strip(s) != "" && IsBreak(Strip(s)[|Strip(s)| - 1]) {
      BreaksAreSpaces(Strip(s)[|Strip(s)| - 1]);
    }
  }

  function Lines(reason: string, origin: Option<string>, expires: Option<string>): seq<string> {
    SplitLines(Strip(reason)) + FieldLines(ORIGIN_PREFIX, origin) + FieldLines(EXPIRES_PREFIX, expires)
  }

  /** The printed text splits into the lines of the reason and the field lines. */
  lemma BodyLines(reason: string, origin: Option<string>, expires: Option<string>)
    requires FieldFits(origin) && FieldFits(expires)
    ensures var lines := Lines(reason, origin, expires);
            SplitLines(HoldBody(reason, origin, expires)) == if lines == [] then [""] else lines
  {
    PrefixFacts(ORIGIN_PREFIX, EXPIRES_PREFIX);
    PrefixFacts(EXPIRES_PREFIX, ORIGIN_PREFIX);
    FieldLinesSplit(ORIGIN_PREFIX, origin);
    FieldLinesSplit(EXPIRES_PREFIX, expires);
    StripEnds(reason);
    SplitParts(Strip(reason), FieldLines(ORIGIN_PREFIX, origin), FieldLines(EXPIRES_PREFIX, expires));
  }

  predicate HasField(lines: seq<string>, prefix: string) {
    exists l :: l in lines && StartsWith(l, prefix)
  }

  lemma {:induction false} FirstFieldAppend(a: seq<string>, b: seq<string>, prefix: string)
    ensures FirstField(a + b, prefix) == if HasField(a, prefix) then FirstField(a, prefix) else FirstField(b, prefix)
  {
    if a == [] {
      assert a + b == b;
    } else {
      assert (a + b)[1..] == a[1..] + b;
      FirstFieldAppend(a[1..], b, prefix);
    }
  }

  /** A field's value as the parser returns it: stripped, and none when blank. */
  function Value(field: Option<string>): Option<string> {
    if field == None || Strip(field.value) == "" then None else Some(Strip(field.value))
  }

  lemma FieldLinesRead(prefix: string, other: string, field: Option<string>, otherField: Option<string>)
    requires Prefixes(prefix, other)
    ensures FirstField(FieldLines(prefix, field), prefix) == Value(field)
    ensures FirstField(FieldLines(other, otherField), prefix) == None
    ensures !HasField(FieldLines(other, otherField), prefix)
  {
    PrefixFacts(prefix, other);
    if Given(field) {
      FieldLine(prefix, other, field.value);
    }
    if Given(otherField) {
      FieldLine(other, prefix, otherField.value);
    }
  }

  lemma BlankHasNoField(prefix: string)
    requires prefix != ""
    ensures FirstField([""], prefix) == None
  {
  }

  lemma FieldAmong(own: seq<string>, o: seq<string>, e: seq<string>, prefix: string)
    ensures FirstField(own + o + e, prefix) ==
              if HasField(own, prefix) then FirstField(own, prefix)
              else if HasField(o, prefix) then FirstField(o, prefix) else FirstField(e, prefix)
  {
    assert own + o + e == own + (o + e);
    FirstFieldAppend(own, o + e, prefix);
    FirstFieldAppend(o, e, prefix);
  }

  lemma {:induction false} NoFieldNoValue(lines: seq<string>, prefix: string)
    requires !HasField(lines, prefix)
    ensures FirstField(lines, prefix) == None
  {
    if lines != [] {
      assert lines[0] in lines;
      NoFieldNoValue(lines[1..], prefix);
    }
  }

  /** The origin survives printing: the reader gets back its stripped value, unless the
      reason itself has such a line, whose value it then gets. */
  lemma OriginRoundTrip(reason: string, origin: Option<string>, expires: Option<string>)
    requires FieldFits(origin) && FieldFits(expires)
    ensures var own := SplitLines(Strip(reason));
            HoldOrigin(HoldBody(reason, origin, expires)) ==
              if HasField(own, ORIGIN_PREFIX) then FirstField(own, ORIGIN_PREFIX) else Value(origin)
  {
    var own, o, e := SplitLines(Strip(reason)), FieldLines(ORIGIN_PREFIX, origin), FieldLines(EXPIRES_PREFIX, expires);
    BodyLines(reason, origin, expires);
    FieldAmong(own, o, e, ORIGIN_PREFIX);
    FieldLinesRead(ORIGIN_PREFIX, EXPIRES_PREFIX, origin, expires);
    BlankHasNoField(ORIGIN_PREFIX);
    if !HasField(o, ORIGIN_PREFIX) { NoFieldNoValue(o, ORIGIN_PREFIX); }
  }

  /** And so does the deadline. */
  lemma DeadlineRoundTrip(reason: string, origin: Option<string>, expires: Option<string>)
    requires FieldFits(origin) && FieldFits(expires)
    ensures var own := SplitLines(Strip(reason));
            HoldDeadline(HoldBody(reason, origin, expires)) ==
              if HasField(own, EXPIRES_PREFIX) then FirstField(own, EXPIRES_PREFIX) else Value(expires)
  {
    var own, o, e := SplitLines(Strip(reason)), FieldLines(ORIGIN_PREFIX, origin), FieldLines(EXPIRES_PREFIX, expires);
    BodyLines(reason, origin, expires);
    FieldAmong(own, o, e, EXPIRES_PREFIX);
    FieldLinesRead(EXPIRES_PREFIX, ORIGIN_PREFIX, expires, origin);
    BlankHasNoField(EXPIRES_PREFIX);
  }

  lemma {:induction false} UnstructuredAppend(a: seq<string>, b: seq<string>)
    ensures Unstructured(a + b) == Unstructured(a) + Unstructured(b)
  {
    if a == [] {
      assert a + b == b;
    } else {
      assert (a + b)[1..] == a[1..] + b;
      UnstructuredAppend(a[1..], b);
    }
  }

  lemma FieldLinesAreStructured(prefix: string, other: string, field: Option<string>)
    requires Prefixes(prefix, other)
    ensures Unstructured(FieldLines(prefix, field)) == []
  {
    PrefixFacts(prefix, other);
    if Given(field) {
      FieldLine(prefix, other, field.value);
      assert Structured(prefix + " " + field.value);
    }
  }

  lemma OnlyTheReasonIsLeft(own: seq<string>, o: seq<string>, e: seq<string>)
    requires Unstructured(o) == [] && Unstructured(e) == []
    ensures JoinLines(Unstructured(if own + o + e == [] then [""] else own + o + e)) == JoinLines(Unstructured(own))
  {
    UnstructuredAppend(own + o, e);
    UnstructuredAppend(own, o);
    assert Unstructured(own) + [] + [] == Unstructured(own);
    if own + o + e == [] {
      assert !Structured("");
      assert Unstructured([""]) == [""] && JoinLines([""]) == "";
    }
  }

  /** What the reason parser makes of printed text depends on the reason alone. */
  lemma ReasonOfBody(reason: string, origin: Option<string>, expires: Option<string>)
    requires FieldFits(origin) && FieldFits(expires)
    ensures ReasonOf(HoldBody(reason, origin, expires)) == Strip(JoinLines(Unstructured(SplitLines(Strip(reason)))))
  {
    var own, o, e := SplitLines(Strip(reason)), FieldLines(ORIGIN_PREFIX, origin), FieldLines(EXPIRES_PREFIX, expires);
    BodyLines(reason, origin, expires);
    FieldLinesAreStructured(ORIGIN_PREFIX, EXPIRES_PREFIX, origin);
    FieldLinesAreStructured(EXPIRES_PREFIX, ORIGIN_PREFIX, expires);
    OnlyTheReasonIsLeft(own, o, e);
  }

  /** Exactly when a reason survives printing: its own breaks are newlines, and none of
      its lines begins like a structured one. */
  lemma ReasonRoundTrip(reason: string, origin: Option<string>, expires: Option<string>)
    requires FieldFits(origin) && FieldFits(expires)
    ensures ReasonOf(HoldBody(reason, origin, expires)) == Strip(reason) <==>
              NewlineOnly(Strip(reason)) && forall l :: l in SplitLines(Strip(reason)) ==> !Structured(l)
  {
    ReasonOfBody(reason, origin, expires);
    LinesRoundTrip(reason);
  }

  lemma LinesRoundTrip(reason: string)
    ensures var r := Strip(reason);
            Strip(JoinLines(Unstructured(SplitLines(r)))) == r <==>
              NewlineOnly(r) && forall l :: l in SplitLines(r) ==> !Structured(l)
  {
    var r := Strip(reason);
    StripEnds(reason);
    var own := SplitLines(r);
    var kept := Unstructured(own);
    UnstructuredIsShorter(own);
    if NewlineOnly(r) {
      JoinSplit(r);
    } else {
      SplitLinesAreSingle(r);
      JoinIsNewlineOnly(kept);
      StripKeepsNewlineOnly(JoinLines(kept));
    }
  }

  lemma StripKeepsNewlineOnly(s: string)
    requires NewlineOnly(s)
    ensures NewlineOnly(Strip(s))
  {
    var trimmed := RStrip(s);
    assert forall c :: c in trimmed ==> c in s;
    LStripIsSuffix(trimmed);
  }

  lemma {:induction false} LStripIsSuffix(s: string)
    ensures forall c :: c in LStrip(s) ==> c in s
  {
    if s != "" && IsSpace(s[0]) {
      LStripIsSuffix(s[1..]);
    }
  }

  // ------------------------------------------------------------- the flag file

  const AUTO_HOLD_MARKER := "cluster_state_sync:auto-hold"

  const AUTO_HOLD_SENTENCE := "Home Assistant is restarting; " + "failover is held until it returns."

  const AUTO_HOLD_REASON := AUTO_HOLD_MARKER + "\n" + AUTO_HOLD_SENTENCE

  predicate OccursAt(text: string, part: string, i: nat) {
    i + |part| <= |text| && text[i..i + |part|] == part
  }

  predicate Contains(text: string, part: string) {
    exists i :: 0 <= i <= |text| && OccursAt(text, part, i)
  }

  function AutoHoldBody(deadline: string, origin: Option<string>): string {
    HoldBody(AUTO_HOLD_REASON, origin, Some(deadline))
  }

  datatype Event =
    | SetHold(reason: string, origin: Option<string>)
    | ClearHold
    | SetAutoHold(deadline: string, origin: Option<string>, fails: bool)
    | ClearAutoHold(fails: bool)

  /** The file's text, if there is a file. */
  function Step(file: Option<string>, e: Event): Option<string> {
    match e
    case SetHold(reason, origin) => Some(HoldBody(reason, origin, None))
    case ClearHold => None
    case SetAutoHold(deadline, origin, fails) =>
      if file.Some? || fails then file else Some(AutoHoldBody(deadline, origin))
    case ClearAutoHold(fails) => if file == None || fails || !Contains(file.value, AUTO_HOLD_MARKER) then file else None
  }

  function At(file: Option<string>, es: seq<Event>, k: nat): Option<string>
    requires k <= |es|
  {
    if k == 0 then file else Step(At(file, es, k - 1), es[k - 1])
  }

  predicate Automatic(e: Event) { e.SetAutoHold? || e.ClearAutoHold? }

  /** An operator's hold without the marker is out of reach of every automatic step. */
  lemma {:induction false} OperatorsHoldSurvives(file: Option<string>, es: seq<Event>, k: nat)
    requires k <= |es| && (forall i :: 0 <= i < k ==> Automatic(es[i]))
    requires file.Some? && !Contains(file.value, AUTO_HOLD_MARKER)
    ensures At(file, es, k) == file
  {
    if k > 0 { OperatorsHoldSurvives(file, es, k - 1); }
  }

  /** One line, with no space at either end. */
  predicate Plain(s: string) {
    SingleLine(s) && s != "" && !IsSpace(s[0]) && !IsSpace(s[|s| - 1])
  }

  lemma MarkerIsPlain()
    ensures Plain(AUTO_HOLD_MARKER) && AUTO_HOLD_MARKER[0] == 'c'
  {
    assert AUTO_HOLD_MARKER == "cluster_state" + "_sync:auto-hold";
    assert SingleLine("cluster_state");
    assert SingleLine("_sync:auto-hold");
  }

  lemma SentenceStartsPlain()
    ensures SingleLine("Home Assistant is restarting; ")
  {
    assert "Home Assistant is restarting; " == "Home Assistant " + "is restarting; ";
    assert SingleLine("Home Assistant ") && SingleLine("is restarting; ");
  }

  lemma SentenceEndsPlain()
    ensures SingleLine("failover is held until it returns.")
  {
    assert "failover is held until it returns." == "failover is held " + "until it returns.";
    assert SingleLine("failover is held ") && SingleLine("until it returns.");
  }

  lemma JoinedPlain(a: string, b: string)
    requires SingleLine(a) && SingleLine(b) && a != "" && b != "" && !IsSpace(a[0]) && !IsSpace(b[|b| - 1])
    ensures Plain(a + b) && (a + b)[0] == a[0]
  {
  }

  lemma SentenceIsPlain()
    ensures Plain(AUTO_HOLD_SENTENCE) && AUTO_HOLD_SENTENCE[0] == 'H'
  {
    SentenceStartsPlain();
    SentenceEndsPlain();
    JoinedPlain("Home Assistant is restarting; ", "failover is held until it returns.");
  }

  lemma PlainLines(a: string, b: string)
    requires Plain(a) && Plain(b)
    ensures Strip(a + "\n" + b) == a + "\n" + b && SplitLines(a + "\n" + b) == [a, b]
  {
    assert a[|a| - 1] in a;
    SplitAppend(a, b);
    SplitSingle(a);
    SplitSingle(b);
  }

  lemma PlainHasNoField(line: string, prefix: string)
    requires Plain(line) && prefix != "" && prefix[0] != line[0]
    ensures !StartsWith(line, prefix)
  {
    assert Strip(line) == line;
  }

  lemma AutoReasonLines()
    ensures Strip(AUTO_HOLD_REASON) == AUTO_HOLD_REASON
    ensures SplitLines(AUTO_HOLD_REASON) == [AUTO_HOLD_MARKER, AUTO_HOLD_SENTENCE]
  {
    MarkerIsPlain();
    SentenceIsPlain();
    PlainLines(AUTO_HOLD_MARKER, AUTO_HOLD_SENTENCE);
  }

  lemma AutoReasonHasNoField(prefix: string)
    requires prefix != "" && prefix[0] != 'c' && prefix[0] != 'H'
    ensures !HasField([AUTO_HOLD_MARKER, AUTO_HOLD_SENTENCE], prefix)
  {
    MarkerIsPlain();
    SentenceIsPlain();
    PlainHasNoField(AUTO_HOLD_MARKER, prefix);
    PlainHasNoField(AUTO_HOLD_SENTENCE, prefix);
  }

  lemma {:induction false} JoinStartsWithItsFirst(lines: seq<string>)
    requires lines != []
    ensures lines[0] <= JoinLines(lines)
  {
  }

  /** An automatic hold carries its marker, so the next start-up removes it; its
      deadline and origin read back. */
  lemma AutoHoldUndoesItself(deadline: string, origin: Option<string>)
    requires FieldFits(origin) && SingleLine(deadline)
    ensures Step(Step(None, SetAutoHold(deadline, origin, false)), ClearAutoHold(false)) == None
    ensures HoldDeadline(AutoHoldBody(deadline, origin)) == Value(Some(deadline))
    ensures HoldOrigin(AutoHoldBody(deadline, origin)) == Value(origin)
  {
    AutoReasonLines();
    AutoReasonHasNoField(ORIGIN_PREFIX);
    AutoReasonHasNoField(EXPIRES_PREFIX);
    OriginRoundTrip(AUTO_HOLD_REASON, origin, Some(deadline));
    DeadlineRoundTrip(AUTO_HOLD_REASON, origin, Some(deadline));
    MarkerComesFirst(deadline, origin);
  }

  lemma OccursFirst(first: string, second: string, joined: string)
    requires first + "\n" + second <= joined
    ensures Contains(joined + "\n", first)
  {
    assert (first + "\n" + second)[..|first|] == first;
    assert (joined + "\n")[..|first|] == first;
    assert OccursAt(joined + "\n", first, 0);
  }

  lemma MarkerComesFirst(deadline: string, origin: Option<string>)
    ensures Contains(AutoHoldBody(deadline, origin), AUTO_HOLD_MARKER)
  {
    AutoReasonLines();
    var lines := HoldLines(AUTO_HOLD_REASON, origin, Some(deadline));
    assert lines[0] == AUTO_HOLD_REASON;
    JoinStartsWithItsFirst(lines);
    OccursFirst(AUTO_HOLD_MARKER, AUTO_HOLD_SENTENCE, JoinLines(lines));
  }

  lemma UnstructuredIsAll(lines: seq<string>)
    requires forall l :: l in lines ==> !Structured(l)
    ensures Unstructured(lines) == lines
  {
  }

  lemma AutoReasonReadsBack(deadline: string, origin: Option<string>)
    requires FieldFits(origin) && SingleLine(deadline)
    ensures ReasonOf(AutoHoldBody(deadline, origin)) == AUTO_HOLD_REASON
  {
    AutoReasonLines();
    var own := [AUTO_HOLD_MARKER, AUTO_HOLD_SENTENCE];
    AutoReasonHasNoField(ORIGIN_PREFIX);
    AutoReasonHasNoField(EXPIRES_PREFIX);
    assert forall l :: l in own ==> !Structured(l);
    UnstructuredIsAll(own);
    ReasonOfBody(AUTO_HOLD_REASON, origin, Some(deadline));
    JoinsTwo(AUTO_HOLD_MARKER, AUTO_HOLD_SENTENCE);
  }

  lemma JoinsTwo(a: string, b: string)
    ensures JoinLines([a, b]) == a + "\n" + b
  {
    assert [a, b][1..] == [b];
  }

  /** A hold is set across a restart wherever there is none, carrying the marker and what
      it was given; one that is there is left alone, and so is everything on a failure. */
  lemma AutoHoldIsWritten(file: Option<string>, deadline: string, origin: Option<string>, fails: bool)
    requires FieldFits(origin) && SingleLine(deadline)
    ensures var after := Step(file, SetAutoHold(deadline, origin, fails));
            if file.Some? || fails then after == file
            else && after.Some? && Contains(after.value, AUTO_HOLD_MARKER)
                 && ReasonOf(after.value) == AUTO_HOLD_MARKER + "\n" + AUTO_HOLD_SENTENCE
                 && HoldDeadline(after.value) == Value(Some(deadline)) && HoldOrigin(after.value) == Value(origin)
  {
    AutoHoldUndoesItself(deadline, origin);
    AutoReasonReadsBack(deadline, origin);
    MarkerComesFirst(deadline, origin);
  }

  /** An operator's hold always takes effect, over whatever was there, and reads back its
      reason and origin, with no deadline. */
  lemma OperatorsHoldIsWritten(file: Option<string>, reason: string, origin: Option<string>)
    requires FieldFits(origin) && NewlineOnly(Strip(reason))
    requires forall l :: l in SplitLines(Strip(reason)) ==> !Structured(l)
    ensures var after := Step(file, SetHold(reason, origin));
            && after.Some? && ReasonOf(after.value) == Strip(reason)
            && HoldOrigin(after.value) == Value(origin) && HoldDeadline(after.value) == None
    ensures Step(file, ClearHold) == None
  {
    ReasonRoundTrip(reason, origin, None);
    OriginRoundTrip(reason, origin, None);
    DeadlineRoundTrip(reason, origin, None);
  }

  class HoldFile {
    var text: Option<string>

    constructor (text: Option<string>)
      ensures this.text == text
    {
      this.text := text;
    }

    method Set(reason: string, origin: Option<string>)
      modifies this
      ensures text == Step(old(text), SetHold(reason, origin))
    {
      text := Some(HoldBody(reason, origin, None));
    }

    method Clear()
      modifies this
      ensures text == None
    {
      if text == None {
        return;
      }
      text := None;
    }

    method SetAuto(deadline: string, origin: Option<string>, fails: bool) returns (written: bool)
      modifies this
      ensures text == Step(old(text), SetAutoHold(deadline, origin, fails))
      ensures written <==> old(text) == None && !fails
      ensures !written ==> text == old(text)
      ensures written ==> text.Some? && Contains(text.value, AUTO_HOLD_MARKER)
    {
      if text.Some? {
        return false;
      }
      if fails {
        return false;
      }
      MarkerComesFirst(deadline, origin);
      text := Some(AutoHoldBody(deadline, origin));
      written := true;
    }

    method ClearAuto(fails: bool) returns (removed: bool)
      modifies this
      ensures text == Step(old(text), ClearAutoHold(fails))
      ensures removed <==> old(text).Some? && !fails && Contains(old(text).value, AUTO_HOLD_MARKER)
      ensures text == if removed then None else old(text)
    {
      if text == None || fails {
        return false;
      }
      if !Contains(text.value, AUTO_HOLD_MARKER) {
        return false;
      }
      text := None;
      removed := true;
    }
  }
}
