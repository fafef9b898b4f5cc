/**
 * The string operations the core uses: ASCII case mapping (`toUpperCase`, `toLowerCase`),
 * `trim`, `includes`, `startsWith`, decimal printing of integers (`toString`),
 * `split` on one character, `join`, and capitalising the first letter of each word.
 */
module Text {
  import opened Seqs

  /** Upper-cases an ASCII letter and leaves every other character alone. */
  function UpperChar(c: char): (r: char)
    ensures 'a' <= c <= 'z' ==> 'A' <= r <= 'Z' && r as int == c as int - 32
    ensures !('a' <= c <= 'z') ==> r == c
  {
    if 'a' <= c <= 'z' then (c as int - 32) as char else c
  }

  /** Lower-cases an ASCII letter and leaves every other character alone. */
  function LowerChar(c: char): (r: char)
    ensures 'A' <= c <= 'Z' ==> 'a' <= r <= 'z' && r as int == c as int + 32
    ensures !('A' <= c <= 'Z') ==> r == c
  {
    if 'A' <= c <= 'Z' then (c as int + 32) as char else c
  }

  /** `s.toUpperCase()` on the ASCII letters. */
  function ToUpper(s: string): (r: string)
    ensures |r| == |s| && forall i :: 0 <= i < |s| ==> UpperChar(s[i]) == r[i]
  {
    Map(s, UpperChar)
  }

  /** `s.toLowerCase()` on the ASCII letters. */
  function ToLower(s: string): (r: string)
    ensures |r| == |s| && forall i :: 0 <= i < |s| ==> LowerChar(s[i]) == r[i]
  {
    Map(s, LowerChar)
  }

  /** Upper-casing forgets the original case: it is idempotent and ignores a prior lower-casing. */
  lemma ToUpperForgetsCase(s: string)
    ensures ToUpper(ToUpper(s)) == ToUpper(s)
    ensures ToUpper(ToLower(s)) == ToUpper(s)
  {
  }

  /** An upper-cased string has no lower-case ASCII letter. */
  lemma ToUpperHasNoLower(s: string)
    ensures forall c :: c in ToUpper(s) ==> !('a' <= c <= 'z')
  {
    forall c | c in ToUpper(s) ensures !('a' <= c <= 'z') {
      var i :| 0 <= i < |s| && ToUpper(s)[i] == c;
    }
  }

  /** Upper-casing leaves unchanged a string without lower-case ASCII letters. */
  lemma ToUpperFixed(s: string)
    requires forall c :: c in s ==> !('a' <= c <= 'z')
    ensures ToUpper(s) == s
  {
    forall i | 0 <= i < |s| ensures ToUpper(s)[i] == s[i] {
      assert s[i] in s;
    }
  }

  /** `s.startsWith(prefix)`. */
  predicate StartsWith(s: string, prefix: string) {
    prefix <= s
  }

  /** The characters `String.prototype.trim` strips: ECMAScript's WhiteSpace and LineTerminator. */
  predicate IsWhitespace(c: char) {
    c in Whitespace
  }

  const Whitespace: set<char> := {
    '\t', '\n', '\U{000B}', '\U{000C}', '\r', ' ', '\U{00A0}', '\U{1680}',
    '\U{2000}', '\U{2001}', '\U{2002}', '\U{2003}', '\U{2004}', '\U{2005}',
    '\U{2006}', '\U{2007}', '\U{2008}', '\U{2009}', '\U{200A}',
    '\U{2028}', '\U{2029}', '\U{202F}', '\U{205F}', '\U{3000}', '\U{FEFF}'
  }

  /** `s` without its leading whitespace. */
  function TrimStart(s: string): (r: string)
    ensures |r| <= |s| && r == s[|s| - |r|..]
    ensures forall k :: 0 <= k < |s| - |r| ==> IsWhitespace(s[k])
    ensures r == [] || !IsWhitespace(r[0])
    decreases |s|
  {
    if s != [] && IsWhitespace(s[0]) then TrimStart(s[1..]) else s
  }

  /** `s` without its trailing whitespace. */
  function TrimEnd(s: string): (r: string)
    ensures |r| <= |s| && r == s[..|r|]
    ensures forall k :: |r| <= k < |s| ==> IsWhitespace(s[k])
    ensures r == [] || !IsWhitespace(r[|r| - 1])
    decreases |s|
  {
    if s != [] && IsWhitespace(s[|s| - 1]) then TrimEnd(s[..|s| - 1]) else s
  }

  /** `s.trim()`. */
  function Trim(s: string): string {
    TrimEnd(TrimStart(s))
  }

  /** Trimming leaves the empty string exactly when the input is all whitespace. */
  lemma TrimBlank(s: string)
    ensures Trim(s) == [] <==> forall k :: 0 <= k < |s| ==> IsWhitespace(s[k])
  {
    var t := TrimStart(s);
    assert t == [] || t[0] == s[|s| - |t|];
  }

  /** Trimming keeps the inner characters: the result is the slice after the leading whitespace. */
  lemma TrimIsSlice(s: string)
    ensures var i := |s| - |TrimStart(s)|; i + |Trim(s)| <= |s| && Trim(s) == s[i..i + |Trim(s)|]
  {
    var t := TrimStart(s);
    var i := |s| - |t|;
    PrefixOfSuffix(s, i, t, TrimEnd(t));
  }

  lemma PrefixOfSuffix<T>(s: seq<T>, i: nat, t: seq<T>, r: seq<T>)
    requires i <= |s| && t == s[i..] && |r| <= |t| && r == t[..|r|]
    ensures r == s[i..i + |r|]
  {
  }

  /** The trimmed string starts and ends with non-whitespace, so trimming it again changes nothing. */
  lemma TrimSpec(s: string)
    ensures var t := Trim(s); t == [] || (!IsWhitespace(t[0]) && !IsWhitespace(t[|t| - 1]))
    ensures Trim(Trim(s)) == Trim(s)
  {
    var u := TrimStart(s);
    var t := TrimEnd(u);
    if t != [] {
      assert t[0] == u[0];
    }
    assert TrimStart(t) == t;
    assert TrimEnd(t) == t;
  }

  /** Trimming removes characters and adds none. */
  lemma TrimKeepsChars(s: string)
    ensures forall c :: c in Trim(s) ==> c in s
  {
    TrimIsSlice(s);
    var k := |s| - |TrimStart(s)|;
    var t := Trim(s);
    forall c | c in t ensures c in s {
      var i :| 0 <= i < |t| && t[i] == c;
      assert t[i] == s[k + i];
    }
  }

  /** `s.includes(q)`: `q` occurs in `s` at some position. */
  function Contains(s: string, q: string): (r: bool)
    ensures r <==> exists i :: 0 <= i <= |s| && q <= s[i..]
    decreases |s|
  {
    if q <= s then
      assert q <= s[0..];
      true
    else if s == [] then false
    else
      var found := Contains(s[1..], q);
      assert forall i :: 0 < i <= |s| ==> s[i..] == s[1..][i - 1..];
      assert found ==> exists i :: 0 <= i <= |s| && q <= s[i..] by {
        if found {
          var i :| 0 <= i <= |s[1..]| && q <= s[1..][i..];
          assert s[1..][i..] == s[i + 1..];
        }
      }
      found
  }

  /** The decimal digit character for `d`. */
  function DigitChar(d: nat): (c: char)
    requires d < 10
    ensures '0' <= c <= '9' && c as int - '0' as int == d
  {
    ('0' as int + d) as char
  }

  /** Decimal notation of a natural number, most significant digit first. */
  function NatToDecimal(n: nat): (r: string)
    ensures |r| >= 1
    ensures forall k :: 0 <= k < |r| ==> '0' <= r[k] <= '9'
    decreases n
  {
    if n < 10 then [DigitChar(n)] else NatToDecimal(n / 10) + [DigitChar(n % 10)]
  }

  /** `n.toString()` for an integer: a minus sign in front of negative numbers. */
  function IntToDecimal(n: int): string {
    if n < 0 then "-" + NatToDecimal(-n) else NatToDecimal(n)
  }

  /** The number a string of decimal digits denotes. */
  function DecimalValue(s: string): int
    requires forall k :: 0 <= k < |s| ==> '0' <= s[k] <= '9'
  {
    if s == [] then 0 else DecimalValue(s[..|s| - 1]) * 10 + (s[|s| - 1] as int - '0' as int)
  }

  /** Reading back the printed digits gives the number, and there is no leading zero. */
  lemma {:induction false} NatToDecimalRoundTrip(n: nat)
    ensures DecimalValue(NatToDecimal(n)) == n
    ensures NatToDecimal(n)[0] == '0' ==> n == 0
    decreases n
  {
    if n >= 10 {
      NatToDecimalRoundTrip(n / 10);
      var r := NatToDecimal(n);
      assert r[..|r| - 1] == NatToDecimal(n / 10);
      assert r[0] == NatToDecimal(n / 10)[0];
    }
  }

  /** Different numbers print differently, so ids built from distinct timestamps are distinct. */
  lemma IntToDecimalInjective(a: int, b: int)
    ensures IntToDecimal(a) == IntToDecimal(b) ==> a == b
  {
    if IntToDecimal(a) == IntToDecimal(b) {
      if a < 0 {
        NegativeDecimal(a);
      }
      if b < 0 {
        NegativeDecimal(b);
      }
      if a >= 0 {
        NatToDecimalRoundTrip(a);
        assert '0' <= IntToDecimal(a)[0];
      }
      if b >= 0 {
        NatToDecimalRoundTrip(b);
        assert '0' <= IntToDecimal(b)[0];
      }
    }
  }

  /** A negative number prints as a minus sign followed by the digits of its magnitude. */
  lemma NegativeDecimal(n: int)
    requires n < 0
    ensures IntToDecimal(n)[0] == '-'
    ensures DecimalValue(IntToDecimal(n)[1..]) == -n
  {
    var digits := NatToDecimal(-n);
    assert IntToDecimal(n) == "-" + digits;
    assert ("-" + digits)[1..] == digits;
    NatToDecimalRoundTrip(-n);
  }

  /** A fixed prefix followed by a printed number names that number only. */
  lemma PrefixedDecimalInjective(prefix: string, a: int, b: int)
    ensures prefix + IntToDecimal(a) == prefix + IntToDecimal(b) ==> a == b
  {
    if prefix + IntToDecimal(a) == prefix + IntToDecimal(b) {
      assert (prefix + IntToDecimal(a))[|prefix|..] == IntToDecimal(a);
      assert (prefix + IntToDecimal(b))[|prefix|..] == IntToDecimal(b);
      IntToDecimalInjective(a, b);
    }
  }

  /** Number of occurrences of `c` in `s`. */
  function CountChar(s: string, c: char): nat {
    |Filter(s, x => x == c)|
  }

  /** `s.split(sep)` for a one-character separator: always at least one (possibly empty) segment. */
  function Split(s: string, sep: char): (r: seq<string>)
    ensures |r| >= 1
    ensures forall w, c :: w in r && c in w ==> c in s && c != sep
    decreases |s|
  {
    if s == [] then [[]]
    else
      var rest := Split(s[1..], sep);
      if s[0] == sep then [[]] + rest
      else
        assert forall w :: w in rest[1..] ==> w in rest;
        [[s[0]] + rest[0]] + rest[1..]
  }

  /** `ws.join(sep)`. */
  function Join(ws: seq<string>, sep: char): string
    decreases |ws|
  {
    if ws == [] then []
    else if |ws| == 1 then ws[0]
    else ws[0] + [sep] + Join(ws[1..], sep)
  }

  lemma JoinCons(a: string, b: string, rest: seq<string>, sep: char)
    ensures Join([a + b] + rest, sep) == a + Join([b] + rest, sep)
  {
    if rest != [] {
      assert ([a + b] + rest)[1..] == rest;
      assert ([b] + rest)[1..] == rest;
    }
  }

  /** Joining the segments with the separator gives back the original string. */
  lemma {:induction false} JoinSplit(s: string, sep: char)
    ensures Join(Split(s, sep), sep) == s
    decreases |s|
  {
    if s != [] {
      JoinSplit(s[1..], sep);
      var rest := Split(s[1..], sep);
      if s[0] == sep {
        assert ([[]] + rest)[1..] == rest;
        assert s == [sep] + s[1..];
      } else {
        JoinCons([s[0]], rest[0], rest[1..], sep);
        assert [rest[0]] + rest[1..] == rest;
        assert s == [s[0]] + s[1..];
      }
    }
  }

  /** The segment count is one more than the number of separators. */
  lemma {:induction false} SplitCount(s: string, sep: char)
    ensures |Split(s, sep)| == CountChar(s, sep) + 1
    decreases |s|
  {
    if s != [] {
      SplitCount(s[1..], sep);
    }
  }

  lemma {:induction false} SplitPrefix(w: string, t: string, sep: char)
    requires sep !in w
    ensures Split(w + t, sep) == [w + Split(t, sep)[0]] + Split(t, sep)[1..]
    decreases |w|
  {
    if w != [] {
      assert (w + t)[1..] == w[1..] + t;
      assert (w + t)[0] == w[0];
      SplitPrefix(w[1..], t, sep);
      assert [w[0]] + (w[1..] + Split(t, sep)[0]) == w + Split(t, sep)[0];
    } else {
      assert w + t == t;
      assert w + Split(t, sep)[0] == Split(t, sep)[0];
      assert [Split(t, sep)[0]] + Split(t, sep)[1..] == Split(t, sep);
    }
  }

  /** Splitting a join of separator-free words gives the words back. */
  lemma {:induction false} SplitJoin(ws: seq<string>, sep: char)
    requires |ws| >= 1
    requires forall w :: w in ws ==> sep !in w
    ensures Split(Join(ws, sep), sep) == ws
    decreases |ws|
  {
    if |ws| == 1 {
      SplitPrefix(ws[0], [], sep);
      assert ws[0] + [] == ws[0];
    } else {
      SplitJoin(ws[1..], sep);
      var j := Join(ws[1..], sep);
      assert Join(ws, sep) == ws[0] + ([sep] + j);
      SplitPrefix(ws[0], [sep] + j, sep);
      assert ([sep] + j)[1..] == j;
      assert Split([sep] + j, sep) == [[]] + ws[1..];
      assert ws[0] + [] == ws[0];
    }
  }

  /** `w.charAt(0).toUpperCase() + w.slice(1)`. */
  function UpperFirst(w: string): string {
    if w == [] then [] else [UpperChar(w[0])] + w[1..]
  }

  /** `s.split(sep).map(UpperFirst).join(' ')`. */
  function CapitalizeWords(s: string, sep: char): string {
    Join(Map(Split(s, sep), UpperFirst), ' ')
  }

  /** The character the capitalised string has at position `i`. */
  function CapitalizedChar(s: string, sep: char, i: nat): char
    requires i < |s|
  {
    if s[i] == sep then ' '
    else if i == 0 || s[i - 1] == sep then UpperChar(s[i])
    else s[i]
  }

  /** A character-by-character rendering of the same transformation (an independent definition). */
  function CapitalizeFrom(s: string, sep: char, atStart: bool): string
    decreases |s|
  {
    if s == [] then []
    else [if s[0] == sep then ' ' else if atStart then UpperChar(s[0]) else s[0]]
         + CapitalizeFrom(s[1..], sep, s[0] == sep)
  }

  lemma {:induction false} CapitalizeFromAt(s: string, sep: char, atStart: bool)
    ensures |CapitalizeFrom(s, sep, atStart)| == |s|
    ensures forall i :: 0 < i < |s| ==> CapitalizeFrom(s, sep, atStart)[i] == CapitalizedChar(s, sep, i)
    ensures |s| > 0 ==>
      CapitalizeFrom(s, sep, atStart)[0] == (if s[0] == sep then ' ' else if atStart then UpperChar(s[0]) else s[0])
    decreases |s|
  {
    if s != [] {
      CapitalizeFromAt(s[1..], sep, s[0] == sep);
      var r := CapitalizeFrom(s, sep, atStart);
      forall i | 1 < i < |s| ensures r[i] == CapitalizedChar(s, sep, i) {
        assert r[i] == CapitalizeFrom(s[1..], sep, s[0] == sep)[i - 1];
        assert CapitalizedChar(s[1..], sep, i - 1) == CapitalizedChar(s, sep, i);
      }
    }
  }

  lemma {:induction false} CapitalizeWordsIsCapitalizeFrom(s: string, sep: char)
    ensures CapitalizeWords(s, sep) == CapitalizeFrom(s, sep, true)
    ensures var ws := Split(s, sep);
      Join([ws[0]] + Map(ws[1..], UpperFirst), ' ') == CapitalizeFrom(s, sep, false)
    decreases |s|
  {
    var ws := Split(s, sep);
    if s != [] {
      CapitalizeWordsIsCapitalizeFrom(s[1..], sep);
      var r := Split(s[1..], sep);
      var capR := Map(r, UpperFirst);
      if s[0] == sep {
        assert ws == [[]] + r;
        assert Map(ws, UpperFirst) == [[]] + capR;
        assert ([[]] + capR)[1..] == capR;
        assert Map(ws[1..], UpperFirst) == capR;
        assert [ws[0]] + capR == [[]] + capR;
      } else {
        assert ws == [[s[0]] + r[0]] + r[1..];
        var tail := Map(r[1..], UpperFirst);
        assert Map(ws, UpperFirst) == [[UpperChar(s[0])] + r[0]] + tail;
        JoinCons([UpperChar(s[0])], r[0], tail, ' ');
        assert Map(ws[1..], UpperFirst) == tail;
        JoinCons([s[0]], r[0], tail, ' ');
        assert capR == [UpperFirst(r[0])] + tail;
        assert r == [r[0]] + r[1..];
      }
    }
  }

  /**
   * Capitalising keeps the length and works character by character: each separator becomes a
   * space, the first character of each segment is upper-cased, and the rest is unchanged.
   */
  lemma CapitalizeWordsAt(s: string, sep: char)
    ensures |CapitalizeWords(s, sep)| == |s|
    ensures forall i :: 0 <= i < |s| ==> CapitalizeWords(s, sep)[i] == CapitalizedChar(s, sep, i)
  {
    CapitalizeWordsIsCapitalizeFrom(s, sep);
    CapitalizeFromAt(s, sep, true);
  }

  /**
   * When the input has no spaces, splitting the output at spaces gives exactly the capitalised
   * segments: as many words as the input has segments.
   */
  lemma CapitalizeWordsWords(s: string, sep: char)
    requires ' ' !in s
    ensures Split(CapitalizeWords(s, sep), ' ') == Map(Split(s, sep), UpperFirst)
    ensures |Split(CapitalizeWords(s, sep), ' ')| == CountChar(s, sep) + 1
  {
    var ws := Map(Split(s, sep), UpperFirst);
    forall w | w in ws ensures ' ' !in w {
      var k :| 0 <= k < |ws| && ws[k] == w;
      var seg := Split(s, sep)[k];
      assert w == UpperFirst(seg);
      forall m | 0 <= m < |w| ensures w[m] != ' ' {
        assert seg[m] in seg;
      }
    }
    SplitJoin(ws, ' ');
    SplitCount(s, sep);
  }

  /** Capitalising a string assembled from separator-free words capitalises each word. */
  lemma CapitalizeKnownWords(ws: seq<string>, sep: char)
    requires |ws| >= 1
    requires forall w :: w in ws ==> sep !in w
    ensures CapitalizeWords(Join(ws, sep), sep) == Join(Map(ws, UpperFirst), ' ')
  {
    SplitJoin(ws, sep);
  }
}
