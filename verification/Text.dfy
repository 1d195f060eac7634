/** The string operations the service uses, with what they mean. */
module Text {
  import opened Wrappers

  /** The first position of `sep` in `s`. */
  function Find(s: string, sep: string): (at: Option<nat>)
    ensures at.Some? ==> at.value + |sep| <= |s| && s[at.value..at.value + |sep|] == sep
  {
    if |s| < |sep| then None
    else if s[..|sep|] == sep then Some(0)
    else if s == "" then None
    else
      var rest := Find(s[1..], sep);
      if rest.None? then None else Some(rest.value + 1)
  }

  /** `split_once`: what comes before and after the first `sep`. */
  function SplitOnce(s: string, sep: string): (parts: Option<(string, string)>)
    ensures parts.Some? ==> s == parts.value.0 + sep + parts.value.1
  {
    var at := Find(s, sep);
    if at.None? then None else Some((s[..at.value], s[at.value + |sep|..]))
  }

  /** A separator whose first character does not occur before it is found where it stands. */
  lemma {:induction false} FindsFirst(a: string, sep: string, b: string)
    requires sep != "" && sep[0] !in a
    ensures Find(a + sep + b, sep) == Some(|a|)
    decreases |a|
  {
    var s := a + sep + b;
    if a == "" {
      assert s[..|sep|] == sep;
    } else {
      assert s[0] == a[0] && a[0] in a;
      assert s[..|sep|][0] != sep[0];
      assert s[1..] == a[1..] + sep + b;
      FindsFirst(a[1..], sep, b);
    }
  }

  ghost predicate OccursAt(s: string, sep: string, i: nat) {
    i + |sep| <= |s| && s[i..i + |sep|] == sep
  }

  /** The text `sep` occurs nowhere in `s`. */
  ghost predicate Nowhere(s: string, sep: string) {
    forall i: nat :: !OccursAt(s, sep, i)
  }

  lemma {:induction false} NotFoundIsNowhere(s: string, sep: string)
    requires sep != ""
    ensures Find(s, sep).None? ==> Nowhere(s, sep)
    decreases |s|
  {
    if |s| < |sep| {
    } else {
      NotFoundIsNowhere(s[1..], sep);
      if Find(s, sep).None? {
        forall i: nat ensures !OccursAt(s, sep, i) {
          if i > 0 && OccursAt(s, sep, i) {
            assert s[1..][i - 1..i - 1 + |sep|] == s[i..i + |sep|];
            assert OccursAt(s[1..], sep, i - 1);
          }
        }
      }
    }
  }

  lemma SplitsFirst(a: string, sep: string, b: string)
    requires sep != "" && sep[0] !in a
    ensures SplitOnce(a + sep + b, sep) == Some((a, b))
  {
    FindsFirst(a, sep, b);
    assert (a + sep + b)[..|a|] == a && (a + sep + b)[|a| + |sep|..] == b;
  }

  lemma {:induction false} FindsNone(s: string, sep: string)
    requires sep != "" && sep[0] !in s
    ensures Find(s, sep).None?
    decreases |s|
  {
    if |s| < |sep| {
    } else {
      assert s[0] in s;
      assert s[..|sep|][0] != sep[0];
      FindsNone(s[1..], sep);
    }
  }

  /** A character separator splits at its first occurrence, so it does not occur before. */
  lemma {:induction false} NotBefore(s: string, c: char)
    ensures Find(s, [c]).Some? ==> c !in s[..Find(s, [c]).value]
    ensures Find(s, [c]).None? ==> c !in s
    decreases |s|
  {
    if s == "" || s[..1] == [c] {
    } else {
      NotBefore(s[1..], c);
      var rest := Find(s[1..], [c]);
      assert s == [s[0]] + s[1..];
      if rest.Some? {
        assert s[..rest.value + 1] == [s[0]] + s[1..][..rest.value];
      }
    }
  }

  /** `rsplit_once` for one character: what comes before and after the last `c`. */
  function SplitLast(s: string, c: char): (parts: Option<(string, string)>)
    ensures parts.Some? ==> s == parts.value.0 + [c] + parts.value.1 && c !in parts.value.1
    ensures parts.None? ==> c !in s
  {
    if s == "" then None
    else if s[|s| - 1] == c then Some((s[..|s| - 1], ""))
    else
      var rest := SplitLast(s[..|s| - 1], c);
      if rest.None? then None else Some((rest.value.0, rest.value.1 + [s[|s| - 1]]))
  }

  lemma {:induction false} SplitsLast(a: string, c: char, b: string)
    requires c !in b
    ensures SplitLast(a + [c] + b, c) == Some((a, b))
    decreases |b|
  {
    var s := a + [c] + b;
    if b == "" {
      assert s[..|s| - 1] == a;
    } else {
      var last := b[|b| - 1];
      assert last in b;
      assert s[..|s| - 1] == a + [c] + b[..|b| - 1];
      SplitsLast(a, c, b[..|b| - 1]);
      assert b == b[..|b| - 1] + [last];
    }
  }

  lemma {:induction false} SplitsNowhere(s: string, c: char)
    requires c !in s
    ensures SplitLast(s, c).None?
    decreases |s|
  {
    if s == "" {
    } else {
      assert s[|s| - 1] in s;
      SplitsNowhere(s[..|s| - 1], c);
    }
  }

  predicate All(s: string, c: char) {
    forall i :: 0 <= i < |s| ==> s[i] == c
  }

  /** `trim_end_matches` for one character, with what it takes off. */
  function TrimEnd(s: string, c: char): (parts: (string, string))
    ensures s == parts.0 + parts.1 && All(parts.1, c)
    ensures parts.0 == "" || parts.0[|parts.0| - 1] != c
  {
    if s == "" || s[|s| - 1] != c then (s, "")
    else var rest := TrimEnd(s[..|s| - 1], c); (rest.0, rest.1 + [c])
  }

  lemma {:induction false} Trims(a: string, tail: string, c: char)
    requires All(tail, c) && (a == "" || a[|a| - 1] != c)
    ensures TrimEnd(a + tail, c) == (a, tail)
    decreases |tail|
  {
    if tail == "" {
      assert a + tail == a;
    } else {
      var front := tail[..|tail| - 1];
      assert (a + tail)[..|a + tail| - 1] == a + front;
      Trims(a, front, c);
      assert tail == front + [c];
    }
  }

  function LowerChar(c: char): char {
    if 'A' <= c <= 'Z' then (c as int - 'A' as int + 'a' as int) as char else c
  }

  function Lower(s: string): (l: string)
    ensures |l| == |s| && forall i :: 0 <= i < |s| ==> l[i] == LowerChar(s[i])
  {
    if s == "" then "" else Lower(s[..|s| - 1]) + [LowerChar(s[|s| - 1])]
  }

  lemma LowerTwice(s: string)
    ensures Lower(Lower(s)) == Lower(s)
  {
  }

  lemma LowerKeeps(s: string)
    requires forall i :: 0 <= i < |s| ==> !('A' <= s[i] <= 'Z')
    ensures Lower(s) == s
  {
  }

  predicate IsAscii(s: string) {
    forall i :: 0 <= i < |s| ==> s[i] as int < 128
  }

  // ----- Decimal numbers ---------------------------------------------------------------------

  function Digit(d: nat): char
    requires d < 10
  {
    (d + '0' as int) as char
  }

  function Decimal(n: nat): (text: string)
    ensures text != "" && forall i :: 0 <= i < |text| ==> '0' <= text[i] <= '9'
  {
    if n < 10 then [Digit(n)] else Decimal(n / 10) + [Digit(n % 10)]
  }

  function Value(text: string): int {
    if text == "" then 0 else 10 * Value(text[..|text| - 1]) + (text[|text| - 1] as int - '0' as int)
  }

  lemma {:induction false} DecimalValue(n: nat)
    ensures Value(Decimal(n)) == n
  {
    if n < 10 {
      assert Decimal(n)[..0] == "";
    } else {
      DecimalValue(n / 10);
      assert Decimal(n)[..|Decimal(n)| - 1] == Decimal(n / 10);
    }
  }

  // ----- Character classes -------------------------------------------------------------------

  const LOWER_LETTERS := "abcdefghijklmnopqrstuvwxyz"
  const UPPER_LETTERS := "ABCDEFGHIJKLMNOPQRSTUVWXYZ"
  const DECIMAL_DIGITS := "0123456789"

  lemma LowerIsListed(c: char)
    ensures c in LOWER_LETTERS <==> 'a' <= c <= 'z'
  {
    if 'a' <= c <= 'z' {
      assert LOWER_LETTERS[c as int - 'a' as int] == c;
    }
  }

  lemma UpperIsListed(c: char)
    ensures c in UPPER_LETTERS <==> 'A' <= c <= 'Z'
  {
    if 'A' <= c <= 'Z' {
      assert UPPER_LETTERS[c as int - 'A' as int] == c;
    }
  }

  lemma DigitIsListed(c: char)
    ensures c in DECIMAL_DIGITS <==> '0' <= c <= '9'
  {
    if '0' <= c <= '9' {
      assert DECIMAL_DIGITS[c as int - '0' as int] == c;
    }
  }

  lemma CharactersAreListed()
    ensures forall c: char :: c in LOWER_LETTERS <==> 'a' <= c <= 'z'
    ensures forall c: char :: c in UPPER_LETTERS <==> 'A' <= c <= 'Z'
    ensures forall c: char :: c in DECIMAL_DIGITS <==> '0' <= c <= '9'
  {
    forall c: char ensures c in LOWER_LETTERS <==> 'a' <= c <= 'z' {
      LowerIsListed(c);
    }
    forall c: char ensures c in UPPER_LETTERS <==> 'A' <= c <= 'Z' {
      UpperIsListed(c);
    }
    forall c: char ensures c in DECIMAL_DIGITS <==> '0' <= c <= '9' {
      DigitIsListed(c);
    }
  }
}
