/** The bits of Python's str and int the coordinate text boxes rely on:
    str.strip(), str.split(sep), int(text) and str(n) for decimal integers. */
module Text {
  import opened Base

  /** The ASCII characters str.isspace() accepts, and so str.strip() and
      int() remove: space, tab, line feed, carriage return, vertical tab,
      form feed and the four separators U+001C to U+001F. */
  predicate IsSpace(c: char)
  {
    || c == ' ' || c == '\t' || c == '\n' || c == '\r' || c == '\U{000B}' || c == '\U{000C}'
    || ('\U{001C}' <= c <= '\U{001F}')
  }

  predicate IsDigit(c: char)
  {
    '0' <= c <= '9'
  }

  /** How often c occurs in s. */
  function Count(s: string, c: char): nat
  {
    if |s| == 0 then 0 else (if s[0] == c then 1 else 0) + Count(s[1..], c)
  }

  lemma {:induction false} CountAppend(s: string, t: string, c: char)
    ensures Count(s + t, c) == Count(s, c) + Count(t, c)
  {
    if |s| > 0 {
      assert (s + t)[0] == s[0] && (s + t)[1..] == s[1..] + t;
      CountAppend(s[1..], t, c);
    } else {
      assert s + t == t;
    }
  }

  /** A text of c-free characters holds no c. */
  lemma {:induction false} CountNone(s: string, c: char)
    requires forall k :: 0 <= k < |s| ==> s[k] != c
    ensures Count(s, c) == 0
  {
    if |s| > 0 {
      CountNone(s[1..], c);
    }
  }

  /** Where the leading whitespace of s ends, looking from position i. */
  function Lead(s: string, i: nat): (j: nat)
    requires i <= |s|
    ensures i <= j <= |s|
    ensures forall k :: i <= k < j ==> IsSpace(s[k])
    ensures j < |s| ==> !IsSpace(s[j])
    decreases |s| - i
  {
    if i < |s| && IsSpace(s[i]) then Lead(s, i + 1) else i
  }

  /** Where the trailing whitespace of s[lo..hi] starts. */
  function Trail(s: string, lo: nat, hi: nat): (j: nat)
    requires lo <= hi <= |s|
    ensures lo <= j <= hi
    ensures forall k :: j <= k < hi ==> IsSpace(s[k])
    ensures j > lo ==> !IsSpace(s[j - 1])
    decreases hi - lo
  {
    if hi > lo && IsSpace(s[hi - 1]) then Trail(s, lo, hi - 1) else hi
  }

  /** str.strip(): s = spaces + r + spaces, and r neither starts nor ends with
      whitespace. */
  function Strip(s: string): (r: string)
    ensures exists i :: 0 <= i <= |s| - |r| && Stripped(s, i, r)
    ensures |r| > 0 ==> !IsSpace(r[0]) && !IsSpace(r[|r| - 1])
  {
    var i := Lead(s, 0);
    var j := Trail(s, i, |s|);
    assert Stripped(s, i, s[i..j]);
    s[i..j]
  }

  /** r sits at position i of s, with only whitespace around it. */
  predicate Stripped(s: string, i: nat, r: string)
  {
    && i + |r| <= |s| && s[i..i + |r|] == r
    && (forall k :: 0 <= k < i ==> IsSpace(s[k]))
    && (forall k :: i + |r| <= k < |s| ==> IsSpace(s[k]))
  }

  /** Stripping keeps every character that is not whitespace. */
  lemma StripKeeps(s: string, c: char)
    requires !IsSpace(c)
    ensures Count(Strip(s), c) == Count(s, c)
  {
    var r := Strip(s);
    var i :| 0 <= i <= |s| - |r| && Stripped(s, i, r);
    StrippedPieces(s, i, r);
    var front, back := s[..i], s[i + |r|..];
    CountNone(front, c);
    CountNone(back, c);
    CountAround(front, r, back, c);
  }

  /** s is its leading whitespace, r and its trailing whitespace. */
  lemma StrippedPieces(s: string, i: nat, r: string)
    requires Stripped(s, i, r)
    ensures s == s[..i] + r + s[i + |r|..]
    ensures AllSpace(s[..i]) && AllSpace(s[i + |r|..])
  {
    assert s == s[..i] + s[i..i + |r|] + s[i + |r|..];
  }

  predicate AllSpace(t: string)
  {
    forall k :: 0 <= k < |t| ==> IsSpace(t[k])
  }

  /** Text around r that holds no c adds nothing to the count of c. */
  lemma CountAround(front: string, r: string, back: string, c: char)
    requires Count(front, c) == 0 && Count(back, c) == 0
    ensures Count(front + r + back, c) == Count(r, c)
  {
    CountAppend(front + r, back, c);
    CountAppend(front, r, c);
  }

  /** A text with no whitespace at either end strips to itself. */
  lemma StripClean(s: string)
    requires |s| > 0 ==> !IsSpace(s[0]) && !IsSpace(s[|s| - 1])
    ensures Strip(s) == s
  {
  }

  /** The pieces joined back with sep in between. */
  function Join(parts: seq<string>, sep: char): string
    requires |parts| > 0
  {
    if |parts| == 1 then parts[0] else parts[0] + [sep] + Join(parts[1..], sep)
  }

  /** str.split(sep): the maximal sep-free pieces, one more than there are
      separators. */
  function Split(s: string, sep: char): (parts: seq<string>)
    ensures |parts| == Count(s, sep) + 1
    ensures forall i :: 0 <= i < |parts| ==> sep !in parts[i]
    ensures Join(parts, sep) == s
  {
    if |s| == 0 then [[]]
    else
      var rest := Split(s[1..], sep);
      if s[0] == sep then [[]] + rest
      else
        var parts := [[s[0]] + rest[0]] + rest[1..];
        assert parts[1..] == rest[1..];
        parts
  }

  /** Splitting a join of sep-free pieces gives the pieces back. */
  lemma {:induction false} SplitJoin(parts: seq<string>, sep: char)
    requires |parts| > 0 && forall i :: 0 <= i < |parts| ==> sep !in parts[i]
    ensures Split(Join(parts, sep), sep) == parts
    decreases |parts|
  {
    if |parts| == 1 {
      SplitPiece(parts[0], sep);
    } else {
      SplitJoin(parts[1..], sep);
      SplitBefore(parts[0], Join(parts[1..], sep), sep);
      assert [parts[0]] + parts[1..] == parts;
    }
  }

  /** A sep-free text splits into itself. */
  lemma {:induction false} SplitPiece(piece: string, sep: char)
    requires sep !in piece
    ensures Split(piece, sep) == [piece]
    decreases |piece|
  {
    if |piece| > 0 {
      SplitPiece(piece[1..], sep);
      assert [piece[0]] + piece[1..] == piece;
    }
  }

  /** A sep-free piece and a separator in front of a text add that piece in
      front of the text's pieces. */
  lemma {:induction false} SplitBefore(piece: string, tail: string, sep: char)
    requires sep !in piece
    ensures Split(piece + [sep] + tail, sep) == [piece] + Split(tail, sep)
    decreases |piece|
  {
    var s := piece + [sep] + tail;
    if |piece| > 0 {
      assert s[0] == piece[0] && s[1..] == piece[1..] + [sep] + tail;
      var rest := Split(s[1..], sep);
      SplitBefore(piece[1..], tail, sep);
      assert rest == [piece[1..]] + Split(tail, sep);
      assert [piece[0]] + piece[1..] == piece;
      assert Split(s, sep) == [[s[0]] + rest[0]] + rest[1..];
    } else {
      assert s[0] == sep && s[1..] == tail;
    }
  }

  /** The value of a run of decimal digits. */
  function DigitsValue(t: string): nat
    requires forall k :: 0 <= k < |t| ==> IsDigit(t[k])
  {
    if |t| == 0 then 0 else DigitsValue(t[..|t| - 1]) * 10 + DigitOf(t[|t| - 1])
  }

  function DigitOf(c: char): nat
    requires IsDigit(c)
  {
    c as int - '0' as int
  }

  predicate AllDigits(t: string)
  {
    |t| > 0 && forall k :: 0 <= k < |t| ==> IsDigit(t[k])
  }

  /** int(text) for an optional sign and ASCII decimal digits, after the
      surrounding whitespace int() itself ignores; anything else raises. */
  function ParseInt(s: string): (r: Result<int>)
    ensures r.Err? ==> r.error == NotAnInteger
    ensures r.Ok? ==> var t := Strip(s);
      || (AllDigits(t) && r.value == DigitsValue(t))
      || (|t| > 0 && t[0] == '+' && AllDigits(t[1..]) && r.value == DigitsValue(t[1..]))
      || (|t| > 0 && t[0] == '-' && AllDigits(t[1..]) && r.value == -(DigitsValue(t[1..]) as int))
    ensures var t := Strip(s);
      (AllDigits(t) || (|t| > 0 && (t[0] == '+' || t[0] == '-') && AllDigits(t[1..]))) ==> r.Ok?
  {
    var t := Strip(s);
    if |t| > 0 && (t[0] == '-' || t[0] == '+') then
      var body := t[1..];
      if !AllDigits(body) then Err(NotAnInteger)
      else if t[0] == '-' then Ok(-(DigitsValue(body) as int))
      else Ok(DigitsValue(body))
    else if AllDigits(t) then Ok(DigitsValue(t))
    else Err(NotAnInteger)
  }

  function DigitChar(d: nat): (c: char)
    requires d < 10
    ensures IsDigit(c) && DigitOf(c) == d
  {
    ('0' as int + d) as char
  }

  /** str(n) for n >= 0: its decimal digits without leading zeros. */
  function Decimal(n: nat): (t: string)
    ensures AllDigits(t)
    decreases n
  {
    if n < 10 then [DigitChar(n)] else Decimal(n / 10) + [DigitChar(n % 10)]
  }

  /** str(n): a minus sign for negative n, then the decimal digits. */
  function FormatInt(n: int): (t: string)
    ensures |t| > 0 && !IsSpace(t[0]) && !IsSpace(t[|t| - 1])
    ensures forall k :: 0 <= k < |t| ==> IsDigit(t[k]) || (k == 0 && t[k] == '-')
  {
    if n < 0 then "-" + Decimal(-n) else Decimal(n)
  }

  /** Reading the digits of n gives n back. */
  lemma {:induction false} DecimalValue(n: nat)
    ensures DigitsValue(Decimal(n)) == n
    decreases n
  {
    if n >= 10 {
      DecimalValue(n / 10);
      var t := Decimal(n);
      assert t[..|t| - 1] == Decimal(n / 10);
    }
  }

  /** int(str(n)) == n. */
  lemma ParseFormat(n: int)
    ensures ParseInt(FormatInt(n)) == Ok(n)
  {
    var t := FormatInt(n);
    StripClean(t);
    if n < 0 {
      assert t[1..] == Decimal(-n);
      DecimalValue(-n);
    } else {
      DecimalValue(n);
    }
  }
}
