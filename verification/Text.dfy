/** The string operations of ECMAScript the event stream is written and read with. */
module Text {

  predicate StartsWith(t: string, p: string) {
    |p| <= |t| && t[..|p|] == p
  }

  /** `t.indexOf(sep)`. */
  function IndexOf(t: string, sep: string): (i: int)
    requires sep != ""
    ensures i >= 0 ==> i + |sep| <= |t| && StartsWith(t[i..], sep)
    ensures forall j :: 0 <= j < (if i < 0 then |t| else i) ==> !StartsWith(t[j..], sep)
  {
    if t == "" then -1
    else if StartsWith(t, sep) then 0
    else
      var k := IndexOf(t[1..], sep);
      assert forall j :: 0 < j < |t| ==> t[j..] == t[1..][j - 1..];
      if k < 0 then -1 else k + 1
  }

  /** `t.split(sep)`: never empty. */
  function SplitOn(t: string, sep: string): (parts: seq<string>)
    requires sep != ""
    ensures parts != []
  {
    var i := IndexOf(t, sep);
    if i < 0 then [t] else [t[..i]] + SplitOn(t[i + |sep|..], sep)
  }

  lemma IndexOfIs(t: string, sep: string, i: nat)
    requires sep != "" && i + |sep| <= |t| && StartsWith(t[i..], sep)
    requires forall j :: 0 <= j < i ==> !StartsWith(t[j..], sep)
    ensures IndexOf(t, sep) == i
  {
    assert t[i..] == t[i..];
  }

  /** A separator found in a text is found at the same place when more follows. */
  lemma IndexOfStays(t: string, more: string, sep: string)
    requires sep != "" && IndexOf(t, sep) >= 0
    ensures IndexOf(t + more, sep) == IndexOf(t, sep)
  {
    var i := IndexOf(t, sep);
    assert (t + more)[i..][..|sep|] == t[i..][..|sep|];
    forall j | 0 <= j < i
      ensures !StartsWith((t + more)[j..], sep)
    {
      assert (t + more)[j..][..|sep|] == t[j..][..|sep|];
    }
    IndexOfIs(t + more, sep, i);
  }

  /** Splitting is incremental: only the last part can change when more follows. */
  lemma {:induction false} SplitExtends(t: string, more: string, sep: string)
    requires sep != ""
    ensures var parts := SplitOn(t, sep); var n := |parts| - 1;
            SplitOn(t + more, sep) == parts[..n] + SplitOn(parts[n] + more, sep)
    decreases |t|
  {
    hide IndexOf, StartsWith;
    var i := IndexOf(t, sep);
    if i < 0 {
    } else {
      var tail := t[i + |sep|..];
      IndexOfStays(t, more, sep);
      assert (t + more)[..i] == t[..i] && (t + more)[i + |sep|..] == tail + more;
      SplitExtends(tail, more, sep);
      AfterFirst(t[..i], SplitOn(tail, sep), SplitOn(SplitOn(tail, sep)[|SplitOn(tail, sep)| - 1] + more, sep));
    }
  }

  lemma AfterFirst(first: string, rest: seq<string>, end: seq<string>)
    requires rest != []
    ensures var parts := [first] + rest; var n := |parts| - 1;
            parts[n] == rest[|rest| - 1] && parts[..n] + end == [first] + (rest[..|rest| - 1] + end)
  {
    assert ([first] + rest)[..|rest|] == [first] + rest[..|rest| - 1];
  }

  predicate IsTerminator(c: char) {
    c == '\n' || c == '\r' || c == '\U{2028}' || c == '\U{2029}'
  }

  /** What `\s` matches and `trim` removes. */
  predicate IsBlank(c: char) {
    || IsTerminator(c) || c == '\t' || c == '\U{B}' || c == '\U{C}' || c == ' ' || c == '\U{A0}' || c == '\U{1680}'
    || '\U{2000}' <= c <= '\U{200A}' || c == '\U{202F}' || c == '\U{205F}' || c == '\U{3000}' || c == '\U{FEFF}'
  }

  function TrimStart(t: string): (r: string)
    ensures |r| <= |t| && (r != "" ==> !IsBlank(r[0]))
  {
    if t != "" && IsBlank(t[0]) then TrimStart(t[1..]) else t
  }

  function TrimEnd(t: string): (r: string)
    ensures |r| <= |t| && (r != "" ==> !IsBlank(r[|r| - 1]))
  {
    if t != "" && IsBlank(t[|t| - 1]) then TrimEnd(t[..|t| - 1]) else t
  }

  function Trim(t: string): string {
    TrimEnd(TrimStart(t))
  }

  /** A text no trimming changes. */
  predicate Solid(t: string) {
    t != "" && !IsBlank(t[0]) && !IsBlank(t[|t| - 1])
  }

  function Join(lines: seq<string>, sep: string): string {
    if lines == [] then "" else if |lines| == 1 then lines[0] else lines[0] + sep + Join(lines[1..], sep)
  }

  /** The text up to the first line terminator: what `.+` takes. */
  function LineOf(t: string): string {
    if t == "" || IsTerminator(t[0]) then "" else [t[0]] + LineOf(t[1..])
  }

  function Concat(chunks: seq<string>): string {
    if chunks == [] then "" else Concat(chunks[..|chunks| - 1]) + chunks[|chunks| - 1]
  }
}
