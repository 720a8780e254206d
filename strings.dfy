/** String helpers that stand for the JavaScript built-ins the pipeline calls:
    `String.prototype.includes`, `Array.prototype.join` and `Number.prototype.toString`. */
module Strings {
  import opened Wrappers

  // ---------------------------------------------------------------------------
  // includes
  // ---------------------------------------------------------------------------

  /** `key` occurs in `s` starting at index `i`. */
  ghost predicate OccursAt(s: string, key: string, i: int) {
    0 <= i && i + |key| <= |s| && s[i..i + |key|] == key
  }

  /** `s.includes(key)`: scan `s` from the left for `key` as a prefix. */
  function Includes(s: string, key: string): bool
    decreases |s|
  {
    if key <= s then true
    else if s == [] then false
    else Includes(s[1..], key)
  }

  /** The scan answers exactly whether `key` occurs somewhere in `s`. */
  lemma {:induction false} IncludesIff(s: string, key: string)
    ensures Includes(s, key) <==> exists i :: OccursAt(s, key, i)
    decreases |s|
  {
    if s != [] {
      IncludesIff(s[1..], key);
    }
    if Includes(s, key) {
      if key <= s {
        assert OccursAt(s, key, 0);
      } else {
        var j :| OccursAt(s[1..], key, j);
        assert s[1..][j..j + |key|] == s[j + 1..j + 1 + |key|];
        assert OccursAt(s, key, j + 1);
      }
    }
    if exists i :: OccursAt(s, key, i) {
      var i :| OccursAt(s, key, i);
      if i == 0 {
        assert s[..|key|] == key;
      } else {
        assert s[1..][i - 1..i - 1 + |key|] == s[i..i + |key|];
        assert OccursAt(s[1..], key, i - 1);
      }
    }
  }

  // ---------------------------------------------------------------------------
  // join and its inverse
  // ---------------------------------------------------------------------------

  /** `parts.join(sep)`. */
  function Join(parts: seq<string>, sep: string): string
  {
    if parts == [] then ""
    else if |parts| == 1 then parts[0]
    else parts[0] + sep + Join(parts[1..], sep)
  }

  /** Cut `s` at every occurrence of the character `c`. It undoes `Join` with separator `[c]` on
      non-empty lists of parts that do not contain `c` (`SplitJoin`). */
  function Split(s: string, c: char): (parts: seq<string>)
    ensures |parts| >= 1
  {
    if s == [] then [""]
    else if s[0] == c then [""] + Split(s[1..], c)
    else
      var rest := Split(s[1..], c);
      [[s[0]] + rest[0]] + rest[1..]
  }

  /** A separator-free prefix glues onto the first piece of what follows it. */
  lemma {:induction false} SplitGlue(t: string, rest: string, c: char)
    requires c !in t
    ensures Split(t + rest, c) == [t + Split(rest, c)[0]] + Split(rest, c)[1..]
  {
    var tail := Split(rest, c);
    if t == [] {
      assert t + rest == rest;
      assert t + tail[0] == tail[0];
      assert tail == [tail[0]] + tail[1..];
    } else {
      SplitGlue(t[1..], rest, c);
      assert t[0] != c;
      assert (t + rest)[0] == t[0];
      assert (t + rest)[1..] == t[1..] + rest;
      assert [t[0]] + (t[1..] + tail[0]) == t + tail[0];
    }
  }

  /** Joining pieces that do not contain the separator and splitting again gives the pieces back. */
  lemma {:induction false} SplitJoin(parts: seq<string>, c: char)
    requires |parts| >= 1
    requires forall i :: 0 <= i < |parts| ==> c !in parts[i]
    ensures Split(Join(parts, [c]), c) == parts
  {
    if |parts| == 1 {
      SplitGlue(parts[0], "", c);
      assert parts[0] + "" == parts[0];
    } else {
      var tail := Join(parts[1..], [c]);
      SplitJoin(parts[1..], c);
      assert parts[0] + [c] + tail == parts[0] + ([c] + tail);
      SplitGlue(parts[0], [c] + tail, c);
      assert ([c] + tail)[1..] == tail;
      assert Split([c] + tail, c) == [""] + Split(tail, c);
      assert parts[0] + "" == parts[0];
      assert parts == [parts[0]] + parts[1..];
    }
  }

  // ---------------------------------------------------------------------------
  // decimal rendering of integers
  // ---------------------------------------------------------------------------

  predicate IsDigit(ch: char) {
    '0' <= ch <= '9'
  }

  predicate AllDigits(s: string) {
    forall k :: 0 <= k < |s| ==> IsDigit(s[k])
  }

  function DigitChar(d: nat): (ch: char)
    requires d < 10
    ensures IsDigit(ch) && (ch as int) - ('0' as int) == d
  {
    (('0' as int) + d) as char
  }

  /** The decimal digits of `n`, most significant first, with no leading zero. */
  function NatToDecimal(n: nat): (s: string)
    ensures |s| >= 1 && AllDigits(s)
    ensures s[0] == '0' ==> n == 0
    decreases n
  {
    if n < 10 then [DigitChar(n)] else NatToDecimal(n / 10) + [DigitChar(n % 10)]
  }

  /** The number a string of decimal digits denotes. */
  function DecimalValue(s: string): nat
    requires AllDigits(s)
  {
    if s == [] then 0
    else DecimalValue(s[..|s| - 1]) * 10 + ((s[|s| - 1] as int) - ('0' as int))
  }

  /** `String(i)` / `i.toString()` for an integer-valued JavaScript number of ordinary size. */
  function IntToString(i: int): string
  {
    if i < 0 then "-" + NatToDecimal(-i) else NatToDecimal(i)
  }

  /** Read back an optionally signed decimal integer. */
  function ParseInt(s: string): Option<int>
  {
    if |s| >= 1 && AllDigits(s) then Some(DecimalValue(s))
    else if |s| >= 2 && s[0] == '-' && AllDigits(s[1..]) then
      var magnitude: int := DecimalValue(s[1..]);
      Some(-magnitude)
    else None
  }

  lemma {:induction false} NatToDecimalValue(n: nat)
    ensures DecimalValue(NatToDecimal(n)) == n
    decreases n
  {
    if n >= 10 {
      NatToDecimalValue(n / 10);
      var s := NatToDecimal(n);
      assert s[..|s| - 1] == NatToDecimal(n / 10);
    }
  }

  /** Rendering an integer in decimal loses nothing: parsing the text gives the integer back. */
  lemma IntToStringRoundTrip(i: int)
    ensures ParseInt(IntToString(i)) == Some(i)
  {
    if i < 0 {
      NatToDecimalValue(-i);
      var s := IntToString(i);
      assert !IsDigit(s[0]);
      assert s[1..] == NatToDecimal(-i);
    } else {
      NatToDecimalValue(i);
    }
  }
}
