/**
 * `VideoProcessor.parse_topics`: the model's topic listing, one line per
 * topic, becomes an ordered list of `{start, end}` pairs.  A line counts
 * when it is not blank and the pattern `(\d+(\.\d+)?) - (\d+(\.\d+)?)`
 * matches at its very start (`re.match`); the two numbers become `start`
 * and `end` with no ordering check.
 */
module Topics {
  import opened Wrappers
  import opened Text

  /** One parsed topic: `{'start': start, 'end': end}`; times are exact decimals. */
  datatype Topic = Topic(start: real, end: real)

  // ---------------------------------------------------------------- the pattern

  /** Length of the run of digits at the start of `s` (what a greedy `\d+` would consume). */
  function LeadingDigits(s: string): (n: nat)
    ensures n <= |s|
    ensures forall k :: 0 <= k < n ==> IsDigit(s[k])
    ensures n == |s| || !IsDigit(s[n])
  {
    if |s| > 0 && IsDigit(s[0]) then 1 + LeadingDigits(s[1..]) else 0
  }

  /** Length of the greedy match of `\d+(\.\d+)?` at the start of `s`; 0 when it does not match. */
  function NumberLength(s: string): (n: nat)
    ensures n <= |s|
  {
    var w := LeadingDigits(s);
    if w == 0 then 0
    else if w < |s| && s[w] == '.' && LeadingDigits(s[w + 1..]) > 0 then w + 1 + LeadingDigits(s[w + 1..])
    else w
  }

  const Separator: string := " - "

  /**
   * `re.match(r'(\d+(\.\d+)?) - (\d+(\.\d+)?)', line)`: the texts of groups
   * 1 and 3 when the pattern matches at the start of the line.  The digit
   * runs are maximal, so backtracking never finds another split: after a
   * shorter digit run the next character is a digit, which neither `.` nor
   * the separator accepts.
   */
  function MatchPair(line: string): (r: Option<(string, string)>)
    ensures r.Some? ==> r.value.0 != [] && r.value.1 != [] && |r.value.0| <= |line| && r.value.0 == line[..|r.value.0|]
  {
    var n1 := NumberLength(line);
    if n1 == 0 then None
    else
      var rest := line[n1..];
      if |rest| >= 3 && rest[..3] == Separator then
        var n2 := NumberLength(rest[3..]);
        if n2 == 0 then None else Some((line[..n1], rest[3..3 + n2]))
      else None
  }

  function Pow10(n: nat): (p: nat)
    ensures p >= 1
  {
    if n == 0 then 1 else 10 * Pow10(n - 1)
  }

  /** `float(text)` on the texts group 1 and group 3 can capture; `None` stands for `ValueError`. */
  function ParseDecimal(t: string): (r: Option<real>)
    ensures r.Some? ==> t != [] && IsDigit(t[0]) && 0.0 <= r.value
  {
    var w := LeadingDigits(t);
    if w == 0 then None
    else if w == |t| then Some(DigitsValue(t) as real)
    else if t[w] == '.' && w + 1 < |t| && LeadingDigits(t[w + 1..]) == |t| - (w + 1) then
      Some(DigitsValue(t[..w]) as real + DigitsValue(t[w + 1..]) as real / Pow10(|t| - (w + 1)) as real)
    else None
  }

  /** What one line of the listing contributes: the body of the loop at vid_edit.py:119-127. */
  function ParseLine(line: string): (r: Option<Topic>)
    ensures r.Some? ==> !IsBlank(line) && MatchPair(line).Some?
    ensures r.Some? ==> 0.0 <= r.value.start && 0.0 <= r.value.end
  {
    if IsBlank(line) then None
    else match MatchPair(line)
      case None => None
      case Some(groups) =>
        var start, end := ParseDecimal(groups.0), ParseDecimal(groups.1);
        if start.Some? && end.Some? then Some(Topic(start.value, end.value)) else None
  }

  // ---------------------------------------------------------------- the listing

  /** Positions of the `Some` entries of `xs`, in increasing order. */
  ghost function PresentAt<T>(xs: seq<Option<T>>): (idx: seq<nat>)
    ensures forall j :: 0 <= j < |idx| ==> idx[j] < |xs| && xs[idx[j]].Some?
    ensures forall j, k :: 0 <= j < k < |idx| ==> idx[j] < idx[k]
    ensures forall i :: 0 <= i < |xs| && xs[i].Some? ==> i in idx
  {
    if xs == [] then []
    else
      var last := |xs| - 1;
      var init := PresentAt(xs[..last]);
      assert forall i :: 0 <= i < last ==> xs[..last][i] == xs[i];
      if xs[last].Some? then init + [last] else init
  }

  /** The values of the `Some` entries of `xs`, in order: one per such entry. */
  function Present<T>(xs: seq<Option<T>>): (ys: seq<T>)
    ensures |ys| == |PresentAt(xs)|
    ensures forall j :: 0 <= j < |ys| ==> xs[PresentAt(xs)[j]] == Some(ys[j])
  {
    if xs == [] then []
    else
      var last := |xs| - 1;
      var init := Present(xs[..last]);
      assert forall i :: 0 <= i < last ==> xs[..last][i] == xs[i];
      match xs[last]
      case Some(t) => init + [t]
      case None => init
  }

  /** What each line of a listing contributes, line by line. */
  function ParseLines(lines: seq<string>): seq<Option<Topic>> {
    seq(|lines|, i requires 0 <= i < |lines| => ParseLine(lines[i]))
  }

  /** The topics of a listing already split into lines. */
  function TopicsOf(lines: seq<string>): seq<Topic> {
    Present(ParseLines(lines))
  }

  /** `parse_topics(topics_text)`: the loop over `topics_text.split('\n')`. */
  method ParseTopics(topicsText: string) returns (parsedTopics: seq<Topic>)
    ensures parsedTopics == TopicsOf(Split(topicsText))
  {
    var lines := Split(topicsText);
    parsedTopics := [];
    var i := 0;
    while i < |lines|
      invariant 0 <= i <= |lines|
      invariant parsedTopics == Present(ParseLines(lines)[..i])
    {
      assert ParseLines(lines)[..i + 1][..i] == ParseLines(lines)[..i];
      var topic := ParseLine(lines[i]);
      if topic.Some? {
        parsedTopics := parsedTopics + [topic.value];
      }
      i := i + 1;
    }
    assert ParseLines(lines)[..|lines|] == ParseLines(lines);
  }
  // ---------------------------------------------------------------- properties of the pattern

  /** A non-empty run of digits. */
  ghost predicate DigitRun(t: string) {
    |t| > 0 && AllDigits(t)
  }

  /** The texts `\d+(\.\d+)?` matches as a whole. */
  ghost predicate NumberForm(t: string) {
    DigitRun(t) || exists d :: 0 < d < |t| && t[d] == '.' && DigitRun(t[..d]) && DigitRun(t[d + 1..])
  }

  /** `line` begins with `a - b`, both numbers: the candidate matches of the pattern at the start of `line`. */
  ghost predicate PairAtStart(line: string, a: string, b: string) {
    NumberForm(a) && NumberForm(b) && |a| + 3 + |b| <= |line| && line[..|a| + 3 + |b|] == a + Separator + b
  }

  lemma NumberLengthSound(s: string)
    ensures NumberLength(s) > 0 ==> NumberForm(s[..NumberLength(s)])
  {
    var w := LeadingDigits(s);
    var n := NumberLength(s);
    if n > w {
      var t := s[..n];
      assert t[..w] == s[..w];
      assert t[w + 1..] == s[w + 1..][..LeadingDigits(s[w + 1..])];
      assert t[w] == '.' && DigitRun(t[..w]) && DigitRun(t[w + 1..]);
    } else if n > 0 {
      assert DigitRun(s[..n]);
    }
  }

  /** A number `a` at the start of `s` is covered by the greedy match, exactly when a space follows it. */
  lemma NumberLengthCovers(s: string, a: string)
    requires NumberForm(a) && |a| <= |s| && s[..|a|] == a
    ensures |a| <= NumberLength(s)
    ensures |a| < |s| && s[|a|] == ' ' ==> NumberLength(s) == |a|
  {
    assert forall k :: 0 <= k < |a| ==> s[k] == a[k];
    if DigitRun(a) {
      assert LeadingDigits(s) >= |a|;
    } else {
      var d :| 0 < d < |a| && a[d] == '.' && DigitRun(a[..d]) && DigitRun(a[d + 1..]);
      assert forall k :: 0 <= k < d ==> a[..d][k] == a[k];
      assert LeadingDigits(s) == d;
      var f := s[d + 1..];
      assert forall k :: 0 <= k < |a| - (d + 1) ==> f[k] == a[d + 1..][k];
      assert LeadingDigits(f) >= |a| - (d + 1);
      if |a| < |s| && s[|a|] == ' ' {
        assert f[|a| - (d + 1)] == ' ';
        assert LeadingDigits(f) == |a| - (d + 1);
      }
    }
  }

  /** Soundness of the matcher: what it reports is a candidate match. */
  lemma MatchPairSound(line: string)
    ensures MatchPair(line).Some? ==> PairAtStart(line, MatchPair(line).value.0, MatchPair(line).value.1)
  {
    if MatchPair(line).Some? {
      var n1 := NumberLength(line);
      var n2 := NumberLength(line[n1..][3..]);
      SuffixSlices(line, n1, n2);
      assert MatchPair(line).value == (line[..n1], line[n1 + 3..n1 + 3 + n2]);
      NumberLengthSound(line);
      NumberLengthSound(line[n1..][3..]);
      PairFromParts(line, n1, n2);
    }
  }

  lemma PairFromParts(line: string, n1: nat, n2: nat)
    requires n1 + 3 + n2 <= |line| && line[n1..n1 + 3] == Separator
    requires NumberForm(line[..n1]) && NumberForm(line[n1 + 3..n1 + 3 + n2])
    ensures PairAtStart(line, line[..n1], line[n1 + 3..n1 + 3 + n2])
  {
    SeparatedPrefix(line, n1, n2);
  }

  /** Slices of the suffix `s[n1..]` are slices of `s`. */
  lemma SuffixSlices<T>(s: seq<T>, n1: nat, n2: nat)
    requires n1 + 3 + n2 <= |s|
    ensures s[n1..][..3] == s[n1..n1 + 3]
    ensures s[n1..][3..3 + n2] == s[n1..][3..][..n2] == s[n1 + 3..n1 + 3 + n2]
  {
  }

  /** A prefix of `line` with the separator at `n1` is the number before it, the separator and what follows. */
  lemma SeparatedPrefix(line: string, n1: nat, n2: nat)
    requires n1 + 3 + n2 <= |line| && line[n1..n1 + 3] == Separator
    ensures line[..n1 + 3 + n2] == line[..n1] + Separator + line[n1 + 3..n1 + 3 + n2]
  {
    var joined := line[..n1] + Separator + line[n1 + 3..n1 + 3 + n2];
    forall j | 0 <= j < n1 + 3 + n2
      ensures line[j] == joined[j]
    {
      if n1 <= j < n1 + 3 {
        assert line[j] == line[n1..n1 + 3][j - n1];
      }
    }
  }

  /**
   * Completeness of the matcher: whenever the line starts with a candidate
   * match, it matches, with exactly that first number and the longest
   * second number (`b` is a prefix of group 3).
   */
  lemma MatchPairComplete(line: string, a: string, b: string)
    requires PairAtStart(line, a, b)
    ensures MatchPair(line).Some?
    ensures MatchPair(line).value.0 == a
    ensures |b| <= |MatchPair(line).value.1| && MatchPair(line).value.1[..|b|] == b
  {
    assert line[..|a|] == (a + Separator + b)[..|a|];
    assert line[|a|] == (a + Separator + b)[|a|];
    NumberLengthCovers(line, a);
    var rest := line[|a|..];
    assert (a + Separator + b)[|a|..|a| + 3] == Separator;
    assert rest[..3] == line[..|a| + 3 + |b|][|a|..|a| + 3];
    var tail := rest[3..];
    assert tail[..|b|] == (a + Separator + b)[|a| + 3..];
    NumberLengthCovers(tail, b);
  }

  /** The strip test is redundant for matching lines, and `float()` never raises on what the pattern captures. */
  lemma MatchedLineParses(line: string)
    requires MatchPair(line).Some?
    ensures var groups := MatchPair(line).value;
      && ParseDecimal(groups.0).Some? && ParseDecimal(groups.1).Some?
      && ParseLine(line) == Some(Topic(ParseDecimal(groups.0).value, ParseDecimal(groups.1).value))
  {
    MatchedLineNotBlank(line);
    MatchedGroupsConvert(line);
    var groups := MatchPair(line).value;
    ParsedGroups(line, groups, ParseDecimal(groups.0).value, ParseDecimal(groups.1).value);
  }

  lemma ParsedGroups(line: string, groups: (string, string), start: real, end: real)
    requires !IsBlank(line) && MatchPair(line) == Some(groups)
    requires ParseDecimal(groups.0) == Some(start) && ParseDecimal(groups.1) == Some(end)
    ensures ParseLine(line) == Some(Topic(start, end))
  {
  }

  lemma MatchedLineNotBlank(line: string)
    requires MatchPair(line).Some?
    ensures !IsBlank(line)
  {
    assert LeadingDigits(line) > 0;
    BlankIffAllSpace(line);
  }

  lemma MatchedGroupsConvert(line: string)
    requires MatchPair(line).Some?
    ensures ParseDecimal(MatchPair(line).value.0).Some? && ParseDecimal(MatchPair(line).value.1).Some?
  {
    var n1 := NumberLength(line);
    var n2 := NumberLength(line[n1..][3..]);
    SuffixSlices(line, n1, n2);
    assert MatchPair(line).value == (line[..n1], line[n1..][3..][..n2]);
    NumberLengthSound(line);
    NumberLengthSound(line[n1..][3..]);
    NumberFormParses(line[..n1]);
    NumberFormParses(line[n1..][3..][..n2]);
  }

  lemma NumberFormParses(t: string)
    requires NumberForm(t)
    ensures ParseDecimal(t).Some?
  {
    if !DigitRun(t) {
      var d :| 0 < d < |t| && t[d] == '.' && DigitRun(t[..d]) && DigitRun(t[d + 1..]);
      assert forall k :: 0 <= k < d ==> t[..d][k] == t[k];
      assert LeadingDigits(t) == d;
      assert LeadingDigits(t[d + 1..]) == |t| - (d + 1);
    }
  }

  /** `re.match` is anchored: a line that does not start with a digit contributes nothing. */
  lemma LeadingTextYieldsNothing(line: string)
    requires |line| > 0 && !IsDigit(line[0])
    ensures ParseLine(line) == None
  {
  }

  // ---------------------------------------------------------------- properties of the listing

  lemma {:induction false} PresentAppend<T>(xs: seq<Option<T>>, ys: seq<Option<T>>)
    ensures Present(xs + ys) == Present(xs) + Present(ys)
  {
    if ys != [] {
      var last := |ys| - 1;
      assert (xs + ys)[..|xs + ys| - 1] == xs + ys[..last];
      PresentAppend(xs, ys[..last]);
    } else {
      assert xs + ys == xs;
    }
  }

  /** Parsing distributes over the lines: each line is parsed on its own and the results keep line order. */
  lemma TopicsOfAppend(a: seq<string>, b: seq<string>)
    ensures TopicsOf(a + b) == TopicsOf(a) + TopicsOf(b)
  {
    ParseLinesAppend(a, b);
    PresentAppend(ParseLines(a), ParseLines(b));
  }

  lemma ParseLinesAppend(a: seq<string>, b: seq<string>)
    ensures ParseLines(a + b) == ParseLines(a) + ParseLines(b)
  {
    var whole, parts := ParseLines(a + b), ParseLines(a) + ParseLines(b);
    forall i | 0 <= i < |whole|
      ensures whole[i] == parts[i]
    {
      if i < |a| {
        assert (a + b)[i] == a[i];
      } else {
        assert (a + b)[i] == b[i - |a|];
      }
    }
  }

  /** A line that contributes nothing does not change what the lines around it contribute. */
  lemma InertLine(a: seq<string>, line: string, b: seq<string>)
    requires ParseLine(line) == None
    ensures TopicsOf(a + [line] + b) == TopicsOf(a) + TopicsOf(b)
  {
    TopicsOfAppend(a + [line], b);
    TopicsOfAppend(a, [line]);
    SilentLine(line);
  }

  lemma SilentLine(line: string)
    requires ParseLine(line) == None
    ensures TopicsOf([line]) == []
  {
    var parsed := ParseLines([line]);
    assert parsed == [None];
    assert parsed[..0] == [];
  }
  // ---------------------------------------------------------------- examples

  /** The bulleted form the topic prompt itself shows yields nothing, because the match is anchored. */
  lemma BulletedLineYieldsNothing()
    ensures ParseLine("- Intro: 0.0 - 30.5") == None
    ensures ParseLine(" 0.0 - 30.5") == None
  {
    LeadingTextYieldsNothing("- Intro: 0.0 - 30.5");
    LeadingTextYieldsNothing(" 0.0 - 30.5");
  }

  /** A line that is exactly `a - b` yields the topic of those two numbers, whichever is larger. */
  lemma PairLineParses(a: string, b: string)
    requires NumberForm(a) && NumberForm(b)
    ensures ParseDecimal(a).Some? && ParseDecimal(b).Some?
    ensures ParseLine(a + Separator + b) == Some(Topic(ParseDecimal(a).value, ParseDecimal(b).value))
  {
    var line := a + Separator + b;
    assert line[..|a| + 3 + |b|] == line;
    MatchPairComplete(line, a, b);
    var g := MatchPair(line).value;
    assert |g.1| <= |b| by {
      assert NumberLength(line) == |a|;
    }
    assert g.1 == g.1[..|b|] == b;
    MatchedLineParses(line);
  }

  /** A reversed range is accepted as it is: there is no `start < end` check. */
  lemma ReversedRangeAccepted(line: string)
    requires line == "20" + Separator + "10"
    ensures ParseLine(line) == Some(Topic(20.0, 10.0))
  {
    WholeNumberParses("20", '2', '0');
    WholeNumberParses("10", '1', '0');
    PairLineParses("20", "10");
  }

  /** A two-digit whole number converts to its value. */
  lemma WholeNumberParses(t: string, tens: char, ones: char)
    requires t == [tens, ones] && IsDigit(tens) && IsDigit(ones)
    ensures NumberForm(t)
    ensures ParseDecimal(t) == Some(((tens as int - '0' as int) * 10 + (ones as int - '0' as int)) as real)
  {
    assert DigitRun(t);
    assert LeadingDigits(t) == |t|;
    assert t[..|t| - 1] == [tens] && [tens][..0] == [];
    assert DigitsValue([tens]) == tens as int - '0' as int;
    assert DigitsValue(t) == DigitsValue([tens]) * 10 + (ones as int - '0' as int);
  }

  /** A listing whose lines carry a label before the times yields no topic at all. */
  lemma LabelledListingYieldsNothing(text: string)
    requires text == "Intro: 0.0 - 10.0" + "\n" + "Body: 10.0 - 40.0"
    ensures TopicsOf(Split(text)) == []
  {
    var l1, l2 := "Intro: 0.0 - 10.0", "Body: 10.0 - 40.0";
    assert Join([l1, l2]) == text by {
      assert [l1, l2][1..] == [l2];
    }
    SplitJoin([l1, l2]);
    LeadingTextYieldsNothing(l1);
    LeadingTextYieldsNothing(l2);
    InertLine([], l1, [l2]);
    SilentLine(l2);
    assert [] + [l1] + [l2] == [l1, l2];
  }
}
