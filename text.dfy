/** String operations the reader's services rely on, in the semantics of the
    QString (and .NET string) calls they stand for. Strings are sequences of
    UTF-16-free Unicode scalar values. */
module Text {

  datatype Option<T> = None | Some(value: T)

  /** QChar::isSpace and .NET char.IsWhiteSpace: the ASCII controls TAB..CR, NEL,
      and the Unicode space, line and paragraph separators. */
  predicate IsSpace(c: char) {
    c == ' ' || ('\t' <= c <= '\r') || c == '\U{85}' || c == '\U{A0}' || c == '\U{1680}'
    || ('\U{2000}' <= c <= '\U{200A}') || c == '\U{2028}' || c == '\U{2029}'
    || c == '\U{202F}' || c == '\U{205F}' || c == '\U{3000}'
  }

  /** `\s` of a QRegularExpression compiled without Unicode properties:
      space and the ASCII controls TAB..CR only. */
  predicate IsRegexSpace(c: char) {
    c == ' ' || ('\t' <= c <= '\r')
  }

  predicate AllSpace(s: string) {
    forall i :: 0 <= i < |s| ==> IsSpace(s[i])
  }

  function TrimStart(s: string): (r: string)
    ensures |r| <= |s| && r == s[|s| - |r|..]
    ensures r == [] || !IsSpace(r[0])
    ensures AllSpace(s[..|s| - |r|])
  {
    if s != [] && IsSpace(s[0]) then
      var r := TrimStart(s[1..]);
      assert s[..|s| - |r|] == [s[0]] + s[1..][..|s| - 1 - |r|];
      r
    else s
  }

  function TrimEnd(s: string): (r: string)
    ensures |r| <= |s| && r == s[..|r|]
    ensures r == [] || !IsSpace(r[|r| - 1])
    ensures AllSpace(s[|r|..])
  {
    if s != [] && IsSpace(s[|s| - 1]) then
      var r := TrimEnd(s[..|s| - 1]);
      assert s[|r|..] == s[..|s| - 1][|r|..] + [s[|s| - 1]];
      r
    else s
  }

  /** QString::trimmed: whitespace removed from both ends. */
  function Trim(s: string): (r: string)
    ensures r == [] || (!IsSpace(r[0]) && !IsSpace(r[|r| - 1]))
  {
    TrimEnd(TrimStart(s))
  }

  /** Where the trimmed text starts in the input. */
  function TrimOffset(s: string): nat {
    |s| - |TrimStart(s)|
  }

  lemma PrefixOfSuffix(s: string, k: nat, n: nat)
    requires k + n <= |s|
    ensures s[k..][..n] == s[k..k + n]
  {
  }

  /** The trimmed text is a contiguous piece of the input. */
  lemma TrimSlice(s: string)
    ensures TrimOffset(s) + |Trim(s)| <= |s|
    ensures s[TrimOffset(s)..TrimOffset(s) + |Trim(s)|] == Trim(s)
  {
    var t := TrimStart(s);
    var u := TrimEnd(t);
    PrefixOfSuffix(s, |s| - |t|, |u|);
  }

  /** The trimmed text is a contiguous piece of the input, and it is empty exactly
      when the input is blank. */
  lemma {:induction false} TrimIsInfix(s: string)
    ensures TrimOffset(s) + |Trim(s)| <= |s|
    ensures s[TrimOffset(s)..TrimOffset(s) + |Trim(s)|] == Trim(s)
    ensures Trim(s) == [] <==> AllSpace(s)
  {
    var t := TrimStart(s);
    var k := TrimOffset(s);
    TrimSlice(s);
    if Trim(s) == [] {
      assert t == [];
      forall i | 0 <= i < |s| ensures IsSpace(s[i]) {
        assert s[..k][i] == s[i];
      }
    } else {
      assert !IsSpace(s[k]);
    }
  }

  /** QChar::toLower on the ASCII letters. */
  function LowerChar(c: char): (r: char)
    ensures 'A' <= c <= 'Z' ==> r as int == c as int + 32
    ensures !('A' <= c <= 'Z') ==> r == c
  {
    if 'A' <= c <= 'Z' then (c as int + 32) as char else c
  }

  /** QString::toLower. */
  function ToLower(s: string): (r: string)
    ensures |r| == |s|
    ensures forall i :: 0 <= i < |s| ==> r[i] == LowerChar(s[i])
  {
    seq(|s|, i requires 0 <= i < |s| => LowerChar(s[i]))
  }

  lemma ToLowerIdempotent(s: string)
    ensures ToLower(ToLower(s)) == ToLower(s)
  {
  }

  /** Every character is its own lowercase. */
  predicate IsLower(s: string) {
    forall i :: 0 <= i < |s| ==> LowerChar(s[i]) == s[i]
  }

  /** A lower-case string is unchanged by QString::toLower. */
  lemma LowerFixed(s: string)
    requires IsLower(s)
    ensures ToLower(s) == s
  {
  }

  lemma LowerCharIdempotent(c: char)
    ensures LowerChar(LowerChar(c)) == LowerChar(c)
  {
  }

  lemma SliceAt(l: string, a: nat, t: string, i: nat)
    requires a + |t| <= |l| && l[a..a + |t|] == t && i < |t|
    ensures t[i] == l[a + i]
  {
  }

  /** QString::toLower yields a lower-case string. */
  lemma ToLowerIsLower(s: string)
    ensures IsLower(ToLower(s))
  {
    forall i | 0 <= i < |s| ensures LowerChar(ToLower(s)[i]) == ToLower(s)[i] {
      LowerCharIdempotent(s[i]);
    }
  }

  /** A piece of a lower-case string is lower case. */
  lemma PieceKeepsLower(l: string, a: nat, t: string)
    requires IsLower(l) && a + |t| <= |l| && l[a..a + |t|] == t
    ensures IsLower(t)
  {
    forall i | 0 <= i < |t| ensures LowerChar(t[i]) == t[i] {
      SliceAt(l, a, t, i);
    }
  }

  /** QString::toLower leaves whitespace alone. */
  lemma ToLowerKeepsSpace(s: string)
    requires AllSpace(s)
    ensures AllSpace(ToLower(s))
  {
    forall i | 0 <= i < |s| ensures IsSpace(ToLower(s)[i]) {
      assert ToLower(s)[i] == LowerChar(s[i]) == s[i];
    }
  }

  /** Trimming a lower-case string leaves it lower case. */
  lemma TrimKeepsLower(l: string)
    requires IsLower(l)
    ensures IsLower(Trim(l))
  {
    TrimSlice(l);
    PieceKeepsLower(l, TrimOffset(l), Trim(l));
  }

  lemma LowerTrimCommute(s: string)
    ensures IsLower(Trim(ToLower(s)))
  {
    ToLowerIsLower(s);
    TrimKeepsLower(ToLower(s));
  }

  /** `t` occurs in `s` at position `i`. */
  predicate MatchAt(s: string, t: string, i: int) {
    0 <= i && i + |t| <= |s| && s[i..i + |t|] == t
  }

  predicate Occurs(s: string, t: string) {
    exists i :: 0 <= i <= |s| && MatchAt(s, t, i)
  }

  /** QString::indexOf(t, from): the first occurrence at or after `from`. */
  function IndexOfFrom(s: string, t: string, from: nat): (r: Option<nat>)
    requires from <= |s|
    ensures r.Some? ==> from <= r.value && MatchAt(s, t, r.value)
    ensures r.Some? ==> forall j :: from <= j < r.value ==> !MatchAt(s, t, j)
    ensures r.None? ==> forall j :: from <= j ==> !MatchAt(s, t, j)
    decreases |s| - from
  {
    if MatchAt(s, t, from) then Some(from)
    else if from + |t| >= |s| then None
    else IndexOfFrom(s, t, from + 1)
  }

  /** QString::indexOf(t): the first occurrence, or None for Qt's -1. */
  function IndexOf(s: string, t: string): (r: Option<nat>)
    ensures r.Some? ==> MatchAt(s, t, r.value) && forall j :: 0 <= j < r.value ==> !MatchAt(s, t, j)
    ensures r.None? <==> !Occurs(s, t)
  {
    IndexOfFrom(s, t, 0)
  }

  /** QString::indexOf(t, 0, Qt::CaseInsensitive). */
  function IndexOfCI(s: string, t: string): Option<nat> {
    IndexOf(ToLower(s), ToLower(t))
  }

  /** QString::contains(t, Qt::CaseInsensitive). */
  predicate ContainsCI(s: string, t: string) {
    IndexOfCI(s, t).Some?
  }

  /** QString::replace(from, to) for a non-empty `from`: every occurrence, scanning
      left to right without overlap, is replaced; the replacement is not rescanned. */
  function ReplaceAll(s: string, from: string, to: string): string
    requires |from| > 0
    decreases |s|
  {
    if |s| < |from| then s
    else if s[..|from|] == from then to + ReplaceAll(s[|from|..], from, to)
    else [s[0]] + ReplaceAll(s[1..], from, to)
  }

  lemma {:induction false} ReplaceAbsent(s: string, from: string, to: string)
    requires |from| > 0 && !Occurs(s, from)
    ensures ReplaceAll(s, from, to) == s
    decreases |s|
  {
    if |s| >= |from| {
      assert !MatchAt(s, from, 0);
      forall i | MatchAt(s[1..], from, i) ensures false {
        assert s[1..][i..i + |from|] == s[i + 1..i + 1 + |from|];
        assert MatchAt(s, from, i + 1);
      }
      ReplaceAbsent(s[1..], from, to);
    }
  }

  lemma ReplaceWhole(from: string, to: string)
    requires |from| > 0
    ensures ReplaceAll(from, from, to) == to
  {
    assert from[..|from|] == from;
    assert from[|from|..] == [];
  }

  /** QString::remove(c): every occurrence of one character dropped. */
  function RemoveChar(s: string, c: char): (r: string)
    ensures c !in r
    ensures |r| <= |s|
  {
    if s == [] then [] else (if s[0] == c then [] else [s[0]]) + RemoveChar(s[1..], c)
  }

  /** The characters `[\\x00-\\x1F]`. */
  predicate IsControl(c: char) {
    c < ' '
  }

  predicate NoControl(s: string) {
    forall i :: 0 <= i < |s| ==> !IsControl(s[i])
  }

  /** QString::remove(QRegularExpression("[\\x00-\\x1F]")). */
  function StripControls(s: string): (r: string)
    ensures NoControl(r)
    ensures |r| <= |s|
  {
    if s == [] then [] else (if IsControl(s[0]) then [] else [s[0]]) + StripControls(s[1..])
  }

  /** Each occurrence of `c` written twice. */
  function DoubleChar(s: string, c: char): (r: string)
    ensures |r| == |s| + CountChar(s, c)
  {
    if s == [] then [] else (if s[0] == c then [c, c] else [s[0]]) + DoubleChar(s[1..], c)
  }

  /** Each pair `cc` read back as one `c`. */
  function Undouble(s: string, c: char): string {
    if s == [] then []
    else if |s| >= 2 && s[0] == c && s[1] == c then [c] + Undouble(s[2..], c)
    else [s[0]] + Undouble(s[1..], c)
  }

  /** Doubling a character is undone by reading pairs back. */
  lemma {:induction false} UndoubleDouble(s: string, c: char)
    ensures Undouble(DoubleChar(s, c), c) == s
  {
    if s != [] {
      var d := DoubleChar(s, c);
      UndoubleDouble(s[1..], c);
      if s[0] == c {
        assert d[2..] == DoubleChar(s[1..], c);
      } else {
        assert d[1..] == DoubleChar(s[1..], c);
      }
    }
  }

  /** QString::replace(c, cc) with a one-character pattern is doubling. */
  lemma {:induction false} ReplaceIsDouble(s: string, c: char)
    ensures ReplaceAll(s, [c], [c, c]) == DoubleChar(s, c)
  {
    if s != [] {
      ReplaceIsDouble(s[1..], c);
    }
  }

  lemma {:induction false} StripControlsAppend(a: string, b: string)
    ensures StripControls(a + b) == StripControls(a) + StripControls(b)
  {
    if a != [] {
      assert (a + b)[0] == a[0];
      assert (a + b)[1..] == a[1..] + b;
      StripControlsAppend(a[1..], b);
    } else {
      assert a + b == b;
    }
  }

  /** Removing control characters commutes with doubling a printable one. */
  lemma {:induction false} StripControlsDouble(s: string, c: char)
    requires !IsControl(c)
    ensures StripControls(DoubleChar(s, c)) == DoubleChar(StripControls(s), c)
  {
    if s != [] {
      var head := if s[0] == c then [c, c] else [s[0]];
      StripControlsAppend(head, DoubleChar(s[1..], c));
      StripControlsAppend([s[0]], s[1..]);
      StripControlsDouble(s[1..], c);
      if IsControl(s[0]) {
        assert StripControls(s) == StripControls(s[1..]);
      } else {
        assert StripControls(s) == [s[0]] + StripControls(s[1..]);
        assert StripControls(head) == head;
      }
    }
  }

  lemma {:induction false} DoubleAbsent(s: string, c: char)
    requires c !in s
    ensures DoubleChar(s, c) == s
  {
    if s != [] { DoubleAbsent(s[1..], c); }
  }

  lemma {:induction false} StripControlsNone(s: string)
    requires NoControl(s)
    ensures StripControls(s) == s
  {
    if s != [] { StripControlsNone(s[1..]); }
  }

  /** Length of the leading run of non-separator characters. */
  function WordLength(s: string): (n: nat)
    ensures n <= |s|
    ensures forall i :: 0 <= i < n ==> !IsRegexSpace(s[i])
    ensures n < |s| ==> IsRegexSpace(s[n])
  {
    if s == [] || IsRegexSpace(s[0]) then 0 else 1 + WordLength(s[1..])
  }

  predicate NoRegexSpace(w: string) {
    forall i :: 0 <= i < |w| ==> !IsRegexSpace(w[i])
  }

  /** QString::split(QRegularExpression("\\s+"), Qt::SkipEmptyParts). */
  function SplitWords(s: string): (r: seq<string>)
    ensures forall k :: 0 <= k < |r| ==> r[k] != [] && NoRegexSpace(r[k])
    decreases |s|
  {
    if s == [] then []
    else if IsRegexSpace(s[0]) then SplitWords(s[1..])
    else
      var n := WordLength(s);
      [s[..n]] + SplitWords(s[n..])
  }

  /** QStringList::join(sep). */
  function Join(parts: seq<string>, sep: string): string {
    if |parts| == 0 then []
    else if |parts| == 1 then parts[0]
    else parts[0] + sep + Join(parts[1..], sep)
  }

  lemma {:induction false} WordLengthOf(w: string, rest: string)
    requires NoRegexSpace(w)
    requires rest == [] || IsRegexSpace(rest[0])
    ensures WordLength(w + rest) == |w|
  {
    if w != [] {
      assert (w + rest)[1..] == w[1..] + rest;
      WordLengthOf(w[1..], rest);
    } else {
      assert w + rest == rest;
    }
  }

  /** Splitting on whitespace undoes joining words with single spaces. */
  lemma {:induction false} SplitJoin(words: seq<string>)
    requires forall k :: 0 <= k < |words| ==> words[k] != [] && NoRegexSpace(words[k])
    ensures SplitWords(Join(words, " ")) == words
  {
    if |words| == 1 {
      WordLengthOf(words[0], []);
      assert words[0][..|words[0]|] == words[0];
      assert words[0][|words[0]|..] == [];
    } else if |words| > 1 {
      var w := words[0];
      var rest := Join(words[1..], " ");
      var s := w + " " + rest;
      assert s == w + (" " + rest);
      WordLengthOf(w, " " + rest);
      assert s[..|w|] == w;
      assert s[|w|..] == " " + rest;
      assert (" " + rest)[1..] == rest;
      SplitJoin(words[1..]);
      assert [w] + words[1..] == words;
    }
  }

  /** Number of occurrences of one character. */
  function CountChar(s: string, c: char): nat {
    if s == [] then 0 else (if s[0] == c then 1 else 0) + CountChar(s[1..], c)
  }

  lemma {:induction false} CountCharAppend(a: string, b: string, c: char)
    ensures CountChar(a + b, c) == CountChar(a, c) + CountChar(b, c)
  {
    if a != [] {
      assert (a + b)[0] == a[0];
      assert (a + b)[1..] == a[1..] + b;
      CountCharAppend(a[1..], b, c);
    } else {
      assert a + b == b;
    }
  }

  /** QString::replace(QChar, QChar): each occurrence of one character swapped for another. */
  function ReplaceChar(s: string, from: char, to: char): (r: string)
    ensures |r| == |s|
    ensures forall i :: 0 <= i < |s| ==> r[i] == (if s[i] == from then to else s[i])
  {
    seq(|s|, i requires 0 <= i < |s| => if s[i] == from then to else s[i])
  }

  /** The parts written one after another. */
  function Concat(parts: seq<string>): string {
    if parts == [] then [] else parts[0] + Concat(parts[1..])
  }

  lemma {:induction false} ConcatAppend(a: seq<string>, b: seq<string>)
    ensures Concat(a + b) == Concat(a) + Concat(b)
  {
    if a == [] {
      assert a + b == b;
    } else {
      assert (a + b)[1..] == a[1..] + b;
      ConcatAppend(a[1..], b);
    }
  }

  /** One more part goes at the end. */
  lemma ConcatSnoc(parts: seq<string>, x: string)
    ensures Concat(parts + [x]) == Concat(parts) + x
  {
    ConcatAppend(parts, [x]);
    assert [x][1..] == [];
    assert x + [] == x;
  }

  /** The i-th part stands after all earlier parts and before all later ones. */
  lemma {:induction false} ConcatAt(parts: seq<string>, i: nat)
    requires i < |parts|
    ensures Concat(parts) == Concat(parts[..i]) + parts[i] + Concat(parts[i + 1..])
  {
    if i == 0 {
      assert parts[..0] == [];
    } else {
      var tail := parts[1..];
      ConcatAt(tail, i - 1);
      assert tail[..i - 1] == parts[..i][1..];
      assert tail[i - 1] == parts[i];
      assert tail[i..] == parts[i + 1..];
    }
  }

  lemma {:induction false} CountCharAbsent(s: string, c: char)
    requires c !in s
    ensures CountChar(s, c) == 0
  {
    if s != [] {
      assert s == [s[0]] + s[1..];
      CountCharAbsent(s[1..], c);
    }
  }

  /** string.IsNullOrWhiteSpace */
  predicate IsNullOrWhiteSpace(s: Option<string>) {
    s.None? || AllSpace(s.value)
  }

  lemma AppendAssoc(a: string, b: string, c: string)
    ensures a + b + c == a + (b + c)
  {
  }
}
