/**
 * The parts of Python's `str` that the pipeline relies on: `strip()`,
 * `split('\n')`, `', '.join(...)`, `str(n)` for a natural number, and the
 * digit class `\d` of the `re` module.
 */
module Text {

  /** `str.isspace()` for one character: the characters `str.strip()` removes. */
  predicate IsSpace(c: char) {
    c == ' ' || ('\t' <= c <= '\r') || ('\U{1C}' <= c <= '\U{1F}')
    || c == '\U{85}' || c == '\U{A0}' || c == '\U{1680}'
    || ('\U{2000}' <= c <= '\U{200A}') || c == '\U{2028}' || c == '\U{2029}'
    || c == '\U{202F}' || c == '\U{205F}' || c == '\U{3000}'
  }

  /** `str.lstrip()`: drops the leading whitespace and nothing else. */
  function TrimStart(s: string): (r: string)
    ensures |r| <= |s| && r == s[|s| - |r|..]
    ensures forall k :: 0 <= k < |s| - |r| ==> IsSpace(s[k])
    ensures r == [] || !IsSpace(r[0])
  {
    if |s| > 0 && IsSpace(s[0]) then TrimStart(s[1..]) else s
  }

  /** `str.rstrip()`: drops the trailing whitespace and nothing else. */
  function TrimEnd(s: string): (r: string)
    ensures |r| <= |s| && r == s[..|r|]
    ensures forall k :: |r| <= k < |s| ==> IsSpace(s[k])
    ensures r == [] || !IsSpace(r[|r| - 1])
  {
    if |s| > 0 && IsSpace(s[|s| - 1]) then TrimEnd(s[..|s| - 1]) else s
  }

  /** `str.strip()`. */
  function Trim(s: string): string {
    TrimEnd(TrimStart(s))
  }

  /** A line is blank when `line.strip()` is the empty (false) string. */
  predicate IsBlank(s: string) {
    Trim(s) == ""
  }

  /** A line is blank exactly when every character of it is whitespace. */
  lemma BlankIffAllSpace(s: string)
    ensures IsBlank(s) <==> forall k :: 0 <= k < |s| ==> IsSpace(s[k])
  {
    var t := TrimStart(s);
    assert t != [] ==> t[0] == s[|s| - |t|];
    assert IsBlank(s) ==> t == [];
  }

  // ---------------------------------------------------------------- split / join

  /** `s.split('\n')`: always at least one piece, none containing a newline. */
  function Split(s: string): (lines: seq<string>)
    ensures |lines| >= 1
    ensures forall i :: 0 <= i < |lines| ==> '\n' !in lines[i]
  {
    if |s| == 0 then [""]
    else if s[0] == '\n' then [""] + Split(s[1..])
    else
      var rest := Split(s[1..]);
      [[s[0]] + rest[0]] + rest[1..]
  }

  /** `'\n'.join(lines)`, the inverse of `Split`. */
  function Join(lines: seq<string>): string
    requires |lines| >= 1
  {
    if |lines| == 1 then lines[0] else lines[0] + "\n" + Join(lines[1..])
  }

  /** Splitting loses nothing: joining the pieces gives the text back. */
  lemma {:induction false} JoinSplit(s: string)
    ensures Join(Split(s)) == s
  {
    if |s| == 0 {
    } else if s[0] == '\n' {
      JoinSplit(s[1..]);
      assert Split(s)[1..] == Split(s[1..]);
    } else {
      var rest := Split(s[1..]);
      JoinSplit(s[1..]);
      if |rest| == 1 {
      } else {
        assert Split(s)[1..] == rest[1..];
        assert rest == [rest[0]] + rest[1..];
        assert Join(rest) == rest[0] + "\n" + Join(rest[1..]);
      }
    }
  }

  /** A single newline-free piece splits to itself, followed by what the text after a newline splits to. */
  lemma {:induction false} SplitAfterLine(l: string, t: string)
    requires '\n' !in l
    ensures Split(l + "\n" + t) == [l] + Split(t)
    ensures Split(l) == [l]
  {
    if l == [] {
      assert l + "\n" + t == "\n" + t;
      assert ("\n" + t)[1..] == t;
    } else {
      SplitAfterLine(l[1..], t);
      assert (l + "\n" + t)[1..] == l[1..] + "\n" + t;
      assert [l[0]] + l[1..] == l;
    }
  }

  /** Joining newline-free pieces and splitting again gives the same pieces. */
  lemma {:induction false} SplitJoin(lines: seq<string>)
    requires |lines| >= 1
    requires forall i :: 0 <= i < |lines| ==> '\n' !in lines[i]
    ensures Split(Join(lines)) == lines
  {
    SplitAfterLine(lines[0], "");
    if |lines| > 1 {
      SplitJoin(lines[1..]);
      SplitAfterLine(lines[0], Join(lines[1..]));
    }
  }

  /** `sep.join(parts)`. */
  function JoinWith(sep: string, parts: seq<string>): string {
    if |parts| == 0 then ""
    else if |parts| == 1 then parts[0]
    else parts[0] + sep + JoinWith(sep, parts[1..])
  }

  // ---------------------------------------------------------------- digits

  /** The class `\d`, on ASCII digits. */
  predicate IsDigit(c: char) {
    '0' <= c <= '9'
  }

  predicate AllDigits(s: string) {
    forall k :: 0 <= k < |s| ==> IsDigit(s[k])
  }

  /** The value of a run of decimal digits, most significant first. */
  function DigitsValue(s: string): nat
    requires AllDigits(s)
  {
    if |s| == 0 then 0
    else DigitsValue(s[..|s| - 1]) * 10 + (s[|s| - 1] as int - '0' as int)
  }

  /** `str(n)` for a natural number. */
  function NatToString(n: nat): (s: string)
    ensures |s| >= 1 && AllDigits(s)
    ensures DigitsValue(s) == n
  {
    var d := ['0' + (n % 10) as char];
    if n < 10 then d
    else
      var p := NatToString(n / 10);
      assert (p + d)[..|p + d| - 1] == p;
      p + d
  }

  /** Distinct numbers print differently, because printing has an inverse. */
  lemma NatToStringInjective(m: nat, n: nat)
    requires NatToString(m) == NatToString(n)
    ensures m == n
  {
  }
}
