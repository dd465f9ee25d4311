/** The few JavaScript built-ins the lotto helper relies on, stated as Dafny
    functions over values: `Array.prototype.slice` / `String.prototype.substring`
    with their index clamping, `Array.prototype.flat`, the numeric
    `sort((a, b) => a - b)`, `parseInt(s, 10)` and `split(/[a-zA-Z]/)`.
    JavaScript strings are sequences of UTF-16 code units; here a `char` is
    a Unicode scalar value, so a lone surrogate code unit has no
    representation (none of the character classes used here contains one). */
module JsBuiltins {

  datatype Option<+T> = None | Some(value: T)

  // ---------------------------------------------------------------------------
  // slice / substring

  /** `s.slice(from, to)` and `s.substring(from, to)` for 0 <= from <= to:
      both indices are clamped to the length, so a range past the end is short or empty. */
  function Slice<T>(s: seq<T>, from: nat, to: nat): seq<T>
    requires from <= to
  {
    s[(if from <= |s| then from else |s|)..(if to <= |s| then to else |s|)]
  }

  /** Within bounds a slice is exactly `s[from..to]`; an end past the length
      stops at the end; a start at or past the length gives nothing. */
  lemma SliceClamps<T>(s: seq<T>, from: nat, to: nat)
    requires from <= to
    ensures to <= |s| ==> Slice(s, from, to) == s[from..to]
    ensures from <= |s| < to ==> Slice(s, from, to) == s[from..]
    ensures |s| <= from ==> Slice(s, from, to) == []
    ensures |Slice(s, from, to)| <= to - from
  {
  }

  // ---------------------------------------------------------------------------
  // flat

  /** `sets.flat()`: the concatenation of the inner sequences, in order. */
  function Flatten(ss: seq<seq<int>>): seq<int> {
    if ss == [] then [] else Flatten(ss[..|ss| - 1]) + ss[|ss| - 1]
  }

  /** A number is in the flattened sequence exactly when some inner sequence holds it. */
  lemma {:induction false} FlattenMembers(ss: seq<seq<int>>)
    ensures forall x :: x in Flatten(ss) <==> exists i :: 0 <= i < |ss| && x in ss[i]
  {
    if ss != [] {
      var init := ss[..|ss| - 1];
      FlattenMembers(init);
      forall x | x in Flatten(ss) ensures exists i :: 0 <= i < |ss| && x in ss[i] {
        if x in Flatten(init) {
          var i :| 0 <= i < |init| && x in init[i];
          assert ss[i] == init[i];
        }
      }
      forall x, i | 0 <= i < |ss| && x in ss[i] ensures x in Flatten(ss) {
        if i < |ss| - 1 {
          assert init[i] == ss[i];
        }
      }
    }
  }

  // ---------------------------------------------------------------------------
  // ordering predicates and the numeric sort

  predicate Ascending(s: seq<int>) {
    forall i, j :: 0 <= i < j < |s| ==> s[i] <= s[j]
  }

  predicate StrictlyAscending(s: seq<int>) {
    forall i, j :: 0 <= i < j < |s| ==> s[i] < s[j]
  }

  /** No value occurs twice. */
  predicate NoRepeats(s: seq<int>) {
    forall x :: x in multiset(s) ==> multiset(s)[x] == 1
  }

  function Insert(x: int, s: seq<int>): seq<int> {
    if s == [] then [x]
    else if x <= s[0] then [x] + s
    else [s[0]] + Insert(x, s[1..])
  }

  lemma {:induction false} InsertPermutes(x: int, s: seq<int>)
    ensures multiset(Insert(x, s)) == multiset(s) + multiset{x}
    ensures |Insert(x, s)| == |s| + 1
  {
    if s != [] && x > s[0] {
      InsertPermutes(x, s[1..]);
      assert s == [s[0]] + s[1..];
    }
  }

  /** Putting a lower bound in front keeps a sequence ascending. */
  lemma ConsAscending(h: int, r: seq<int>)
    requires Ascending(r)
    requires forall y :: y in r ==> h <= y
    ensures Ascending([h] + r)
  {
    forall i, j | 0 <= i < j < |r| + 1 ensures ([h] + r)[i] <= ([h] + r)[j] {
      assert ([h] + r)[j] == r[j - 1] && r[j - 1] in r;
      if i > 0 {
        assert ([h] + r)[i] == r[i - 1];
      }
    }
  }

  /** Every number of an ascending sequence is at least its first. */
  lemma AscendingHeadIsLeast(s: seq<int>)
    requires Ascending(s) && s != []
    ensures forall y :: y in s[1..] ==> s[0] <= y
  {
    forall y | y in s[1..] ensures s[0] <= y {
      var k :| 0 <= k < |s[1..]| && s[1..][k] == y;
      assert s[k + 1] == y;
    }
  }

  lemma {:induction false} InsertAscending(x: int, s: seq<int>)
    requires Ascending(s)
    ensures Ascending(Insert(x, s))
  {
    if s != [] && x > s[0] {
      var tail := s[1..];
      InsertAscending(x, tail);
      InsertPermutes(x, tail);
      AscendingHeadIsLeast(s);
      var r := Insert(x, tail);
      forall y | y in r ensures s[0] <= y {
        assert y in multiset(r);
        assert y == x || y in multiset(tail);
      }
      ConsAscending(s[0], r);
    }
  }

  /** `s.sort((a, b) => a - b)` on numbers: insertion sort. The ascending
      permutation of a sequence is unique, so the engine's choice of sorting
      algorithm does not matter. */
  function SortAscending(s: seq<int>): seq<int> {
    if s == [] then [] else Insert(s[0], SortAscending(s[1..]))
  }

  /** The sort returns an ascending permutation of its input. */
  lemma {:induction false} SortAscendingSorts(s: seq<int>)
    ensures Ascending(SortAscending(s))
    ensures multiset(SortAscending(s)) == multiset(s)
    ensures |SortAscending(s)| == |s|
  {
    if s != [] {
      var tail := s[1..];
      SortAscendingSorts(tail);
      InsertAscending(s[0], SortAscending(tail));
      InsertPermutes(s[0], SortAscending(tail));
      assert s == [s[0]] + tail;
    }
  }

  lemma {:induction false} StrictlyAscendingNoRepeats(s: seq<int>)
    requires StrictlyAscending(s)
    ensures NoRepeats(s)
  {
    if s != [] {
      StrictlyAscendingNoRepeats(s[1..]);
      assert s == [s[0]] + s[1..];
      assert s[0] !in s[1..];
      forall x | x in multiset(s) ensures multiset(s)[x] == 1 {
        if x != s[0] {
          assert x in multiset(s[1..]);
        }
      }
    }
  }

  lemma {:induction false} SortIsIdentityOnAscending(s: seq<int>)
    requires StrictlyAscending(s)
    ensures SortAscending(s) == s
  {
    if s != [] {
      var tail := s[1..];
      SortIsIdentityOnAscending(tail);
      assert SortAscending(s) == Insert(s[0], SortAscending(tail));
      if tail != [] {
        assert s[0] <= tail[0];
      }
      assert Insert(s[0], tail) == [s[0]] + tail;
    }
  }

  /** A sub-multiset of a repeat-free sequence has no repeats either. */
  lemma NoRepeatsSub(s: seq<int>, t: seq<int>)
    requires NoRepeats(t)
    requires multiset(s) <= multiset(t)
    ensures NoRepeats(s)
  {
    forall x | x in multiset(s) ensures multiset(s)[x] == 1 {
      assert multiset(s)[x] <= multiset(t)[x];
    }
  }

  lemma NoRepeatsMeansDistinct(s: seq<int>)
    requires NoRepeats(s)
    ensures forall i, j :: 0 <= i < j < |s| ==> s[i] != s[j]
  {
    forall i, j | 0 <= i < j < |s| ensures s[i] != s[j] {
      assert s == s[..i] + [s[i]] + s[i + 1..j] + [s[j]] + s[j + 1..];
      assert multiset(s)[s[i]] >= 1 + multiset([s[j]])[s[i]];
    }
  }

  lemma PrefixMultiset(s: seq<int>, k: nat)
    requires k <= |s|
    ensures multiset(s[..k]) <= multiset(s)
  {
    assert s == s[..k] + s[k..];
  }

  // ---------------------------------------------------------------------------
  // parseInt(s, 10)

  /** WhiteSpace and LineTerminator code units of ECMAScript (section 12.2 and
      12.3 of ECMA-262), which `parseInt` skips before the number. */
  predicate IsJsWhiteSpace(c: char) {
    c == '\t' || c == '\n' || c == '\U{000B}' || c == '\U{000C}' || c == '\r' ||
    c == ' ' || c == '\U{00A0}' || c == '\U{1680}' ||
    ('\U{2000}' <= c <= '\U{200A}') ||
    c == '\U{2028}' || c == '\U{2029}' || c == '\U{202F}' || c == '\U{205F}' ||
    c == '\U{3000}' || c == '\U{FEFF}'
  }

  predicate IsDecimalDigit(c: char) { '0' <= c <= '9' }

  /** The letters the payload separator `/[a-zA-Z]/` matches: ASCII only. */
  predicate IsAsciiLetter(c: char) { 'a' <= c <= 'z' || 'A' <= c <= 'Z' }

  function DigitValue(c: char): int {
    (c as int) - ('0' as int)
  }

  function TrimStart(s: string): string {
    if s != [] && IsJsWhiteSpace(s[0]) then TrimStart(s[1..]) else s
  }

  lemma {:induction false} TrimStartShrinks(s: string)
    ensures |TrimStart(s)| <= |s|
  {
    if s != [] && IsJsWhiteSpace(s[0]) {
      TrimStartShrinks(s[1..]);
    }
  }

  /** The longest prefix of decimal digits. */
  function LeadingDigits(s: string): string {
    if s != [] && IsDecimalDigit(s[0]) then [s[0]] + LeadingDigits(s[1..]) else []
  }

  predicate AllDigits(ds: string) {
    forall k :: 0 <= k < |ds| ==> IsDecimalDigit(ds[k])
  }

  lemma {:induction false} LeadingDigitsShape(s: string)
    ensures |LeadingDigits(s)| <= |s| && AllDigits(LeadingDigits(s))
  {
    if s != [] && IsDecimalDigit(s[0]) {
      LeadingDigitsShape(s[1..]);
    }
  }

  function DecimalValue(ds: string): int {
    if ds == [] then 0 else DecimalValue(ds[..|ds| - 1]) * 10 + DigitValue(ds[|ds| - 1])
  }

  function Pow10(n: nat): (p: nat)
    ensures p >= 1
  {
    if n == 0 then 1 else 10 * Pow10(n - 1)
  }

  lemma {:induction false} DecimalValueBound(ds: string)
    requires AllDigits(ds)
    ensures 0 <= DecimalValue(ds) < Pow10(|ds|)
  {
    if ds != [] {
      DecimalValueBound(ds[..|ds| - 1]);
    }
  }

  /** `parseInt(s, 10)`: skip leading white space, take one optional sign,
      then the longest run of decimal digits; `NaN` (here `None`) when that
      run is empty. Anything after the digits is ignored. `-0` is 0 here. */
  function ParseInt(s: string): Option<int> {
    var u := TrimStart(s);
    var negative := u != [] && u[0] == '-';
    var w := if u != [] && (u[0] == '-' || u[0] == '+') then u[1..] else u;
    var z := LeadingDigits(w);
    if z == [] then None
    else Some(if negative then -DecimalValue(z) else DecimalValue(z))
  }

  /** A string of at most two code units parses, if at all, to a value in -9..99:
      `parseInt` does not restrict it to the lotto range 1..45. */
  lemma ParseIntShortRange(s: string)
    requires |s| <= 2
    ensures ParseInt(s).Some? ==> -9 <= ParseInt(s).value <= 99
  {
    var u := TrimStart(s);
    var w := if u != [] && (u[0] == '-' || u[0] == '+') then u[1..] else u;
    var z := LeadingDigits(w);
    TrimStartShrinks(s);
    LeadingDigitsShape(w);
    DecimalValueBound(z);
    if u != [] && u[0] == '-' {
      assert |z| <= 1;
    } else {
      assert |z| <= 2;
    }
  }

  /** The two decimal digits of 0 <= n <= 99, zero-padded. */
  function TwoDigits(n: int): (r: string)
    requires 0 <= n <= 99
    ensures |r| == 2 && IsDecimalDigit(r[0]) && IsDecimalDigit(r[1])
  {
    [(('0' as int) + n / 10) as char, (('0' as int) + n % 10) as char]
  }

  lemma ParseIntTwoDigits(n: int)
    requires 0 <= n <= 99
    ensures ParseInt(TwoDigits(n)) == Some(n)
  {
    var s := TwoDigits(n);
    assert TrimStart(s) == s;
    assert s[1..][1..] == [];
    assert LeadingDigits(s[1..]) == s[1..];
    assert LeadingDigits(s) == s;
    assert s[..1] == [s[0]];
    assert DecimalValue(s[..1]) == DigitValue(s[0]) == n / 10;
    assert DigitValue(s[1]) == n % 10;
  }

  /** Text that is empty or starts with a letter has no digit in front:
      `parseInt` gives `NaN`. */
  lemma ParseIntLetterNaN(s: string)
    requires s == [] || IsAsciiLetter(s[0])
    ensures ParseInt(s) == None
  {
  }

  lemma {:induction false} LeadingDigitsOfDigits(ds: string, rest: string)
    requires AllDigits(ds)
    requires rest == [] || !IsDecimalDigit(rest[0])
    ensures LeadingDigits(ds + rest) == ds
  {
    if ds != [] {
      assert (ds + rest)[1..] == ds[1..] + rest;
      LeadingDigitsOfDigits(ds[1..], rest);
    }
  }

  /** `parseInt` reads the digits in front and ignores whatever follows. */
  lemma ParseIntStopsAtNonDigit(ds: string, rest: string)
    requires ds != [] && AllDigits(ds)
    requires rest == [] || !IsDecimalDigit(rest[0])
    ensures ParseInt(ds + rest) == Some(DecimalValue(ds))
  {
    var s := ds + rest;
    LeadingDigitsOfDigits(ds, rest);
    assert s[0] == ds[0] && IsDecimalDigit(s[0]);
    assert !IsJsWhiteSpace(s[0]) && s[0] != '-' && s[0] != '+';
    assert TrimStart(s) == s;
  }

  /** Leading white space is skipped whatever follows it. */
  lemma {:induction false} TrimStartWhiteSpace(ws: string, x: string)
    requires forall k :: 0 <= k < |ws| ==> IsJsWhiteSpace(ws[k])
    ensures TrimStart(ws + x) == TrimStart(x)
  {
    if ws != [] {
      assert IsJsWhiteSpace(ws[0]) && (ws + x)[0] == ws[0];
      assert (ws + x)[1..] == ws[1..] + x;
      TrimStartWhiteSpace(ws[1..], x);
    } else {
      assert ws + x == x;
    }
  }

  /** Leading white space does not change what `parseInt` reads, whatever follows. */
  lemma ParseIntAfterSpace(ws: string, x: string)
    requires forall k :: 0 <= k < |ws| ==> IsJsWhiteSpace(ws[k])
    ensures ParseInt(ws + x) == ParseInt(x)
  {
    TrimStartWhiteSpace(ws, x);
  }

  /** Text that starts with neither white space, a sign nor a digit is `NaN`. */
  lemma ParseIntNoDigits(rest: string)
    requires rest == [] || (!IsDecimalDigit(rest[0]) && !IsJsWhiteSpace(rest[0]) && rest[0] != '-' && rest[0] != '+')
    ensures ParseInt(rest) == None
  {
  }

  /** A sign, then a run of digits and a rest that does not continue it: the
      value of the digits, negated after `-`; `NaN` when there are none. */
  lemma ParseIntSigned(c: char, ds: string, rest: string)
    requires c == '-' || c == '+'
    requires AllDigits(ds)
    requires rest == [] || !IsDecimalDigit(rest[0])
    ensures ParseInt([c] + ds + rest) ==
      if ds == [] then None else Some(if c == '-' then -DecimalValue(ds) else DecimalValue(ds))
  {
    var x := [c] + ds + rest;
    assert x[0] == c;
    assert TrimStart(x) == x;
    assert x[1..] == ds + rest;
    LeadingDigitsOfDigits(ds, rest);
  }

  /** `parseInt(s, 10)` on any text, taken apart as leading white space, at
      most one sign, the run of digits and a rest that does not continue the
      run: the value of the digits, negated after `-`, and `NaN` when there
      are no digits. Every text can be taken apart this way. */
  lemma ParseIntReads(ws: string, sign: string, ds: string, rest: string)
    requires forall k :: 0 <= k < |ws| ==> IsJsWhiteSpace(ws[k])
    requires sign == "" || sign == "-" || sign == "+"
    requires AllDigits(ds)
    requires rest == [] || !IsDecimalDigit(rest[0])
    requires sign == "" && ds == [] && rest != [] ==> !IsJsWhiteSpace(rest[0]) && rest[0] != '-' && rest[0] != '+'
    ensures ParseInt(ws + sign + ds + rest) ==
      if ds == [] then None else Some(if sign == "-" then -DecimalValue(ds) else DecimalValue(ds))
  {
    assert ws + sign + ds + rest == ws + (sign + ds + rest);
    ParseIntAfterSpace(ws, sign + ds + rest);
    if sign == "" {
      assert sign + ds + rest == ds + rest;
      if ds == [] {
        assert ds + rest == rest;
        ParseIntNoDigits(rest);
      } else {
        ParseIntStopsAtNonDigit(ds, rest);
      }
    } else {
      assert sign == [sign[0]];
      ParseIntSigned(sign[0], ds, rest);
    }
  }

  /** The longest prefix of JavaScript white space: what `TrimStart` drops. */
  function LeadingSpace(s: string): string {
    if s != [] && IsJsWhiteSpace(s[0]) then [s[0]] + LeadingSpace(s[1..]) else []
  }

  /** What follows the longest prefix of decimal digits. */
  function AfterDigits(s: string): string {
    if s != [] && IsDecimalDigit(s[0]) then AfterDigits(s[1..]) else s
  }

  /** The sign `parseInt` accepts in front of the digits, if any. */
  function SignOf(u: string): string {
    if u != [] && (u[0] == '-' || u[0] == '+') then [u[0]] else []
  }

  lemma {:induction false} SpaceSplit(s: string)
    ensures s == LeadingSpace(s) + TrimStart(s)
    ensures forall k :: 0 <= k < |LeadingSpace(s)| ==> IsJsWhiteSpace(LeadingSpace(s)[k])
    ensures TrimStart(s) == [] || !IsJsWhiteSpace(TrimStart(s)[0])
  {
    if s != [] && IsJsWhiteSpace(s[0]) {
      SpaceSplit(s[1..]);
      assert s == [s[0]] + s[1..];
    }
  }

  lemma {:induction false} DigitSplit(w: string)
    ensures w == LeadingDigits(w) + AfterDigits(w)
    ensures AfterDigits(w) == [] || !IsDecimalDigit(AfterDigits(w)[0])
  {
    if w != [] && IsDecimalDigit(w[0]) {
      DigitSplit(w[1..]);
      assert w == [w[0]] + w[1..];
    }
  }

  lemma SignSplit(u: string)
    ensures u == SignOf(u) + u[|SignOf(u)|..]
    ensures SignOf(u) == "" || SignOf(u) == "-" || SignOf(u) == "+"
    ensures SignOf(u) == "" ==> u == [] || (u[0] != '-' && u[0] != '+')
  {
  }

  lemma Glue(s: string, ws: string, u: string, sign: string, w: string, ds: string, rest: string)
    requires s == ws + u && u == sign + w && w == ds + rest
    ensures s == ws + sign + ds + rest
  {
  }

  /** Every text can be taken apart as `ParseIntReads` requires: its leading
      white space, at most one sign, the digits after it and the rest. */
  lemma EveryTextDecomposes(s: string)
    ensures var u := TrimStart(s);
      var sign := SignOf(u);
      var w := u[|sign|..];
      s == LeadingSpace(s) + sign + LeadingDigits(w) + AfterDigits(w) &&
      (forall k :: 0 <= k < |LeadingSpace(s)| ==> IsJsWhiteSpace(LeadingSpace(s)[k])) &&
      (sign == "" || sign == "-" || sign == "+") &&
      AllDigits(LeadingDigits(w)) &&
      (AfterDigits(w) == [] || !IsDecimalDigit(AfterDigits(w)[0])) &&
      (sign == "" && LeadingDigits(w) == [] && AfterDigits(w) != [] ==>
        !IsJsWhiteSpace(AfterDigits(w)[0]) && AfterDigits(w)[0] != '-' && AfterDigits(w)[0] != '+')
  {
    var u := TrimStart(s);
    SpaceSplit(s);
    var sign := SignOf(u);
    SignSplit(u);
    var w := u[|sign|..];
    DigitSplit(w);
    LeadingDigitsShape(w);
    Glue(s, LeadingSpace(s), u, sign, w, LeadingDigits(w), AfterDigits(w));
    if sign == "" && LeadingDigits(w) == [] {
      assert AfterDigits(w) == w == u;
    }
  }

  /** `s` taken apart as leading white space, at most one sign, a run of
      digits and a rest that does not continue the run (nor, with neither sign
      nor digits, start with white space or a sign). */
  predicate ParseIntParts(s: string, ws: string, sign: string, ds: string, rest: string) {
    s == ws + sign + ds + rest &&
    (forall k :: 0 <= k < |ws| ==> IsJsWhiteSpace(ws[k])) &&
    (sign == "" || sign == "-" || sign == "+") &&
    AllDigits(ds) &&
    (rest == [] || !IsDecimalDigit(rest[0])) &&
    (sign == "" && ds == [] && rest != [] ==> !IsJsWhiteSpace(rest[0]) && rest[0] != '-' && rest[0] != '+')
  }

  /** `parseInt` on any text: the text has such parts, and the result is the
      value of their digit run, negated after `-`, or `NaN` when the run is empty. */
  lemma ParseIntAnyText(s: string)
    ensures exists ws, sign, ds, rest ::
      && ParseIntParts(s, ws, sign, ds, rest)
      && ParseInt(s) == if ds == [] then None else Some(if sign == "-" then -DecimalValue(ds) else DecimalValue(ds))
  {
    EveryTextDecomposes(s);
    var u := TrimStart(s);
    var sign := SignOf(u);
    var w := u[|sign|..];
    var ws, ds, rest := LeadingSpace(s), LeadingDigits(w), AfterDigits(w);
    ParseIntReads(ws, sign, ds, rest);
    assert ParseIntParts(s, ws, sign, ds, rest);
  }

  /** A minus sign in front of a run of digits negates its value. */
  lemma ParseIntMinus(ds: string, rest: string)
    requires ds != [] && AllDigits(ds)
    requires rest == [] || !IsDecimalDigit(rest[0])
    ensures ParseInt(['-'] + ds + rest) == Some(-DecimalValue(ds))
  {
    ParseIntSigned('-', ds, rest);
  }

  // ---------------------------------------------------------------------------
  // split(/[a-zA-Z]/)

  /** `s.split(/[a-zA-Z]/)`: the pieces between ASCII letters, in order;
      adjacent letters or a letter at either end give empty pieces. */
  function SplitOnLetters(s: string): (parts: seq<string>)
    ensures |parts| >= 1
  {
    if s == [] then [[]]
    else
      var rest := SplitOnLetters(s[1..]);
      if IsAsciiLetter(s[0]) then [[]] + rest
      else [[s[0]] + rest[0]] + rest[1..]
  }

  function CountLetters(s: string): nat {
    if s == [] then 0 else (if IsAsciiLetter(s[0]) then 1 else 0) + CountLetters(s[1..])
  }

  predicate LetterFree(s: string) {
    forall k :: 0 <= k < |s| ==> !IsAsciiLetter(s[k])
  }

  /** No piece holds a letter. */
  lemma {:induction false} SplitPiecesLetterFree(s: string)
    ensures forall i :: 0 <= i < |SplitOnLetters(s)| ==> LetterFree(SplitOnLetters(s)[i])
  {
    if s != [] {
      SplitPiecesLetterFree(s[1..]);
      var rest := SplitOnLetters(s[1..]);
      if !IsAsciiLetter(s[0]) {
        var first := [s[0]] + rest[0];
        assert LetterFree(rest[0]);
        assert LetterFree(first) by {
          forall k | 0 <= k < |first| ensures !IsAsciiLetter(first[k]) {
            if k > 0 {
              assert first[k] == rest[0][k - 1];
            }
          }
        }
        forall i | 0 <= i < |rest| - 1 ensures LetterFree(rest[1..][i]) {
          assert rest[1..][i] == rest[i + 1];
        }
      }
    }
  }

  lemma {:induction false} SplitCount(s: string)
    ensures |SplitOnLetters(s)| == CountLetters(s) + 1
  {
    if s != [] {
      SplitCount(s[1..]);
    }
  }

  lemma {:induction false} SplitLetterFree(s: string)
    requires LetterFree(s)
    ensures SplitOnLetters(s) == [s]
  {
    if s != [] {
      SplitLetterFree(s[1..]);
      assert [s[0]] + s[1..] == s;
    }
  }

  /** Splitting undoes a letter-separated concatenation: the text before the
      first letter is the first piece and the rest is split on its own. */
  lemma {:induction false} SplitAtLetter(a: string, l: char, b: string)
    requires LetterFree(a) && IsAsciiLetter(l)
    ensures SplitOnLetters(a + [l] + b) == [a] + SplitOnLetters(b)
  {
    if a == [] {
      assert a + [l] + b == [l] + b;
      assert ([l] + b)[1..] == b;
    } else {
      var s := a + [l] + b;
      assert s[1..] == a[1..] + [l] + b;
      SplitAtLetter(a[1..], l, b);
      assert [a[0]] + a[1..] == a;
    }
  }
}
