/**
 * The character classes of java.lang.Character and the String helpers the
 * modelled code uses, restricted to ASCII (see README, "Left out").
 */
module Characters {

  predicate IsUpperCase(c: char)
  {
    'A' <= c <= 'Z'
  }

  /** `Character.isLowerCase`. */
  predicate IsLowerCase(c: char)
  {
    'a' <= c <= 'z'
  }

  /** `Character.isAlphabetic`. */
  predicate IsAlphabetic(c: char)
  {
    IsUpperCase(c) || IsLowerCase(c)
  }

  predicate IsDigit(c: char)
  {
    '0' <= c <= '9'
  }

  /** `Character.isLetterOrDigit`. */
  predicate IsLetterOrDigit(c: char)
  {
    IsAlphabetic(c) || IsDigit(c)
  }

  /** `Character.isWhitespace`: space, \t, \n, \u000B, \f, \r and the four separators \u001C-\u001F. */
  predicate IsWhitespace(c: char)
  {
    c == ' ' || ('\t' <= c <= '\r') || ('\U{1C}' <= c <= '\U{1F}')
  }

  /** `Character.toLowerCase`. */
  function ToLower(c: char): (d: char)
    ensures !IsUpperCase(d)
    ensures IsUpperCase(c) ==> IsLowerCase(d)
    ensures !IsUpperCase(c) ==> d == c
  {
    if IsUpperCase(c) then (c as int + 32) as char else c
  }

  /** `String.toLowerCase`. */
  function LowerCase(s: string): (r: string)
    ensures |r| == |s|
    ensures forall k :: 0 <= k < |s| ==> r[k] == ToLower(s[k])
  {
    if s == [] then [] else [ToLower(s[0])] + LowerCase(s[1..])
  }

  /** `String.contains`: `part` occurs at the start of `s` or further on. */
  predicate ContainsSubstring(s: string, part: string)
    decreases |s|
  {
    |part| <= |s| && (s[..|part|] == part || (s != [] && ContainsSubstring(s[1..], part)))
  }

  predicate OccursAt(s: string, part: string, k: int)
  {
    0 <= k <= |s| - |part| && s[k..k + |part|] == part
  }

  /** The scan finds `part` exactly when it occurs at some offset. */
  lemma {:induction false} ContainsSubstringIff(s: string, part: string)
    ensures ContainsSubstring(s, part) <==> exists k :: 0 <= k <= |s| - |part| && OccursAt(s, part, k)
    decreases |s|
  {
    if |part| <= |s| && s != [] {
      ContainsSubstringIff(s[1..], part);
      if exists k :: 0 <= k <= |s| - |part| && OccursAt(s, part, k) {
        var k :| 0 <= k <= |s| - |part| && OccursAt(s, part, k);
        if k > 0 {
          assert s[1..][k - 1..k - 1 + |part|] == s[k..k + |part|];
          assert OccursAt(s[1..], part, k - 1);
        } else {
          assert s[..|part|] == s[0..|part|];
        }
      }
      if ContainsSubstring(s[1..], part) {
        var k :| 0 <= k <= |s[1..]| - |part| && OccursAt(s[1..], part, k);
        assert s[1..][k..k + |part|] == s[k + 1..k + 1 + |part|];
        assert OccursAt(s, part, k + 1);
      }
      if s[..|part|] == part {
        assert OccursAt(s, part, 0);
      }
    } else if |part| <= |s| {
      assert OccursAt(s, part, 0) <==> s[..|part|] == part;
    }
  }

  /** Leading characters `String.trim` removes: every character up to and including ' '. */
  function TrimStart(s: string): string
  {
    if s != [] && s[0] <= ' ' then TrimStart(s[1..]) else s
  }

  function TrimEnd(s: string): string
  {
    if s != [] && s[|s| - 1] <= ' ' then TrimEnd(s[..|s| - 1]) else s
  }

  /** `String.trim`. */
  function Trim(s: string): string
  {
    TrimEnd(TrimStart(s))
  }

  lemma {:induction false} TrimStartSpec(s: string)
    ensures |TrimStart(s)| <= |s| && TrimStart(s) == s[|s| - |TrimStart(s)|..]
    ensures forall k :: 0 <= k < |s| - |TrimStart(s)| ==> s[k] <= ' '
    ensures TrimStart(s) != [] ==> TrimStart(s)[0] > ' '
  {
    if s != [] && s[0] <= ' ' {
      TrimStartSpec(s[1..]);
    }
  }

  lemma {:induction false} TrimEndSpec(s: string)
    ensures |TrimEnd(s)| <= |s| && TrimEnd(s) == s[..|TrimEnd(s)|]
    ensures forall k :: |TrimEnd(s)| <= k < |s| ==> s[k] <= ' '
    ensures TrimEnd(s) != [] ==> TrimEnd(s)[|TrimEnd(s)| - 1] > ' '
  {
    if s != [] && s[|s| - 1] <= ' ' {
      TrimEndSpec(s[..|s| - 1]);
    }
  }

  /**
   * `trim` cuts the text to a slice s[a..b]: everything before a and from b
   * on is at most ' ', and a non-empty result starts and ends above ' '.
   */
  lemma {:induction false} TrimSpec(s: string)
    ensures exists a, b ::
      0 <= a <= b <= |s| && Trim(s) == s[a..b] && (forall k :: 0 <= k < a ==> s[k] <= ' ') && (forall k :: b <= k < |s| ==> s[k] <= ' ')
    ensures Trim(s) != [] ==> Trim(s)[0] > ' ' && Trim(s)[|Trim(s)| - 1] > ' '
  {
    var t := TrimStart(s);
    TrimStartSpec(s);
    TrimEndSpec(t);
    var a := |s| - |t|;
    var b := a + |TrimEnd(t)|;
    assert Trim(s) == s[a..b];
    forall k | b <= k < |s| ensures s[k] <= ' ' {
      assert s[k] == t[k - a];
    }
  }

  /** `StringUtils.isBlank`: empty or whitespace only. */
  predicate IsBlank(s: string)
  {
    forall k :: 0 <= k < |s| ==> IsWhitespace(s[k])
  }

  /** A text that is not blank stays so when something is appended to it. */
  lemma {:induction false} NonBlankAppend(a: string, b: string)
    requires !IsBlank(a)
    ensures !IsBlank(a + b)
  {
    var m :| 0 <= m < |a| && !IsWhitespace(a[m]);
    assert (a + b)[m] == a[m];
  }

  /** Decimal digits of a natural number, as `String.valueOf` / string concatenation print it. */
  function NatToString(n: nat): (s: string)
    ensures |s| >= 1
    ensures forall k :: 0 <= k < |s| ==> IsDigit(s[k])
    decreases n
  {
    if n < 10 then [DigitChar(n)] else NatToString(n / 10) + [DigitChar(n % 10)]
  }

  function DigitChar(d: nat): (c: char)
    requires d < 10
    ensures IsDigit(c)
  {
    ('0' as int + d) as char
  }

  /** Decimal printing is injective: different numbers print differently. */
  lemma {:induction false} NatToStringInjective(m: nat, n: nat)
    requires NatToString(m) == NatToString(n)
    ensures m == n
    decreases m
  {
    var s := NatToString(m);
    if m >= 10 && n >= 10 {
      var sm, sn := NatToString(m / 10), NatToString(n / 10);
      assert s == sm + [DigitChar(m % 10)] && s == sn + [DigitChar(n % 10)];
      assert sm == s[..|s| - 1] == sn;
      assert DigitChar(m % 10) == s[|s| - 1] == DigitChar(n % 10);
      NatToStringInjective(m / 10, n / 10);
    }
  }
}
