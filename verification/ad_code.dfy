/**
 * Derivation of the ad code from an ad's display name: the leftmost
 * case-insensitive match of the regular expression NK[-_]\d+, upper-cased,
 * with its underscore separator turned into a hyphen; no match gives null.
 */
module AdCode {
  import opened Wrappers

  predicate IsDigit(c: char) { '0' <= c <= '9' }

  /** Under the `i` flag (without `u`) the only characters equal to N and K are N, n, K and k. */
  predicate IsLetterN(c: char) { c == 'N' || c == 'n' }
  predicate IsLetterK(c: char) { c == 'K' || c == 'k' }
  predicate IsSeparator(c: char) { c == '-' || c == '_' }

  /** s[i..i+len] is a match of /NK[-_]\d+/i. */
  predicate MatchAt(s: string, i: nat, len: nat) {
    && 4 <= len
    && i + len <= |s|
    && IsLetterN(s[i]) && IsLetterK(s[i + 1]) && IsSeparator(s[i + 2])
    && forall j :: i + 3 <= j < i + len ==> IsDigit(s[j])
  }

  ghost predicate HasMatch(s: string) {
    exists i: nat, len: nat :: MatchAt(s, i, len)
  }

  /**
   * The match a backtracking regular-expression engine reports: it starts at
   * the leftmost position where any match starts, and the greedy \d+ makes it
   * the longest match starting there.
   */
  ghost predicate LeftmostLongest(s: string, i: nat, len: nat) {
    && MatchAt(s, i, len)
    && (forall p: nat, l: nat :: p < i ==> !MatchAt(s, p, l))
    && (forall l: nat :: MatchAt(s, i, l) ==> l <= len)
  }

  /** The shape of every code: "NK-" followed by one or more ASCII digits. */
  predicate IsCanonical(code: string) {
    && |code| >= 4
    && code[0] == 'N' && code[1] == 'K' && code[2] == '-'
    && forall j :: 3 <= j < |code| ==> IsDigit(code[j])
  }

  /** The shortest possible match (separator plus one digit) starts at i. */
  predicate StartsMatch(s: string, i: nat) {
    i + 4 <= |s| && IsLetterN(s[i]) && IsLetterK(s[i + 1]) && IsSeparator(s[i + 2]) && IsDigit(s[i + 3])
  }

  /** Length of the maximal run of digits starting at position j. */
  function DigitRun(s: string, j: nat): (n: nat)
    requires j <= |s|
    ensures j + n <= |s|
    ensures forall m :: j <= m < j + n ==> IsDigit(s[m])
    ensures j + n == |s| || !IsDigit(s[j + n])
    decreases |s| - j
  {
    if j == |s| || !IsDigit(s[j]) then 0 else 1 + DigitRun(s, j + 1)
  }

  /** The leftmost position at or after `from` where a match starts. */
  function FindFrom(s: string, from: nat): (r: Option<nat>)
    ensures r.Some? ==> from <= r.value && StartsMatch(s, r.value)
    ensures r.Some? ==> forall p: nat :: from <= p < r.value ==> !StartsMatch(s, p)
    ensures r.None? ==> forall p: nat :: from <= p ==> !StartsMatch(s, p)
    decreases |s| - from
  {
    if |s| < from + 4 then None
    else if StartsMatch(s, from) then Some(from)
    else FindFrom(s, from + 1)
  }

  lemma MatchStarts(s: string, i: nat, len: nat)
    requires MatchAt(s, i, len)
    ensures StartsMatch(s, i)
  {
    assert IsDigit(s[i + 3]);
  }

  /** Scans `s` for the match the regular expression reports, as (start, length). */
  function FirstMatch(s: string): (m: Option<(nat, nat)>)
    ensures m.Some? ==> LeftmostLongest(s, m.value.0, m.value.1)
    ensures m.None? ==> !HasMatch(s)
  {
    match FindFrom(s, 0)
    case None =>
      assert !HasMatch(s) by {
        forall i: nat, len: nat | MatchAt(s, i, len) ensures false {
          MatchStarts(s, i, len);
        }
      }
      None
    case Some(i) =>
      var len := 3 + DigitRun(s, i + 3);
      assert LeftmostLongest(s, i, len) by {
        forall p: nat, l: nat | p < i && MatchAt(s, p, l) ensures false {
          MatchStarts(s, p, l);
        }
        forall l: nat | MatchAt(s, i, l) ensures l <= len {
        }
      }
      Some((i, len))
  }

  lemma LeftmostLongestUnique(s: string, i: nat, len: nat, i': nat, len': nat)
    requires LeftmostLongest(s, i, len) && LeftmostLongest(s, i', len')
    ensures i == i' && len == len'
  {

  }

  /** String.prototype.toUpperCase restricted to ASCII letters, which is all a match contains. */
  function UpperAscii(c: char): char {
    if 'a' <= c <= 'z' then (c as int - 32) as char else c
  }

  function ToUpper(s: string): (u: string)
    ensures |u| == |s|
    ensures forall j :: 0 <= j < |s| ==> u[j] == UpperAscii(s[j])
  {
    seq(|s|, j requires 0 <= j < |s| => UpperAscii(s[j]))
  }

  /** Position j holds the first occurrence of `c` in s. */
  predicate FirstAt(s: string, c: char, j: nat) {
    && j < |s|
    && s[j] == c
    && forall i :: 0 <= i < j ==> s[i] != c
  }

  /**
   * String.prototype.replace with a one-character string pattern: only the
   * first occurrence of `from` becomes `to`; without one the string is unchanged.
   */
  function ReplaceFirst(s: string, from: char, to: char): (r: string)
    ensures |r| == |s|
    ensures forall j: nat :: j < |s| ==> r[j] == (if FirstAt(s, from, j) then to else s[j])
    ensures (forall j :: 0 <= j < |s| ==> s[j] != from) ==> r == s
    decreases |s|
  {
    if |s| == 0 then s
    else if s[0] == from then [to] + s[1..]
    else
      var rest := ReplaceFirst(s[1..], from, to);
      assert forall j: nat :: 0 < j < |s| ==> (FirstAt(s, from, j) <==> FirstAt(s[1..], from, j - 1)) by {
        forall j: nat | 0 < j < |s| ensures FirstAt(s, from, j) <==> FirstAt(s[1..], from, j - 1) {
          if FirstAt(s[1..], from, j - 1) {
            forall i | 0 <= i < j ensures s[i] != from {
              if i > 0 {
                assert s[i] == s[1..][i - 1];
              }
            }
          }
        }
      }
      [s[0]] + rest
  }

  /** The text of a match after `.toUpperCase().replace("_", "-")`. */
  function Normalize(m: string): (r: string)
    ensures |r| == |m|
    ensures forall j: nat :: j < |m| ==> r[j] == (if FirstAt(m, '_', j) then '-' else UpperAscii(m[j]))
  {
    var u := ToUpper(m);
    assert forall j: nat :: j < |m| ==> (FirstAt(u, '_', j) <==> FirstAt(m, '_', j)) by {
      forall j: nat | j < |m| ensures FirstAt(u, '_', j) <==> FirstAt(m, '_', j) {
        forall i | 0 <= i <= j ensures (u[i] == '_' <==> m[i] == '_') {
          assert u[i] == UpperAscii(m[i]);
        }
      }
    }
    ReplaceFirst(u, '_', '-')
  }

  /** Normalizing any match yields "NK-" followed by the match's own digits. */
  lemma NormalizeMatch(s: string, i: nat, len: nat)
    requires MatchAt(s, i, len)
    ensures Normalize(s[i..i + len]) == "NK-" + s[i + 3..i + len]
  {
    var m := s[i..i + len];
    var u := ToUpper(m);
    var digits := s[i + 3..i + len];
    assert u[0] == 'N' && u[1] == 'K' && u[2] == s[i + 2];
    assert u[3..] == digits by {
      forall j | 0 <= j < |digits| ensures u[3 + j] == digits[j] {
        assert IsDigit(s[i + 3 + j]);
      }
    }
    assert forall j :: 0 <= j < |digits| ==> digits[j] != '_' by {
      forall j | 0 <= j < |digits| ensures digits[j] != '_' {
        assert IsDigit(s[i + 3 + j]);
      }
    }
    assert u[1..][1..] == u[2..];
    assert u[2..][1..] == digits;
    if s[i + 2] == '_' {
      calc {
        ReplaceFirst(u, '_', '-');
        [u[0]] + ReplaceFirst(u[1..], '_', '-');
        [u[0]] + ([u[1]] + ReplaceFirst(u[2..], '_', '-'));
        [u[0]] + ([u[1]] + (['-'] + digits));
      }
    } else {
      calc {
        ReplaceFirst(u, '_', '-');
        [u[0]] + ReplaceFirst(u[1..], '_', '-');
        [u[0]] + ([u[1]] + ReplaceFirst(u[2..], '_', '-'));
        [u[0]] + ([u[1]] + ([u[2]] + ReplaceFirst(digits, '_', '-')));
        [u[0]] + ([u[1]] + ([u[2]] + digits));
      }
    }
  }

  /**
   * The ad code of an optional ad name. An absent or empty name (both falsy
   * in JavaScript) and a name without a match give None.
   */
  function Derive(name: Option<string>): (code: Option<string>)
    ensures code.Some? <==> name.Some? && HasMatch(name.value)
    ensures code.Some? ==> IsCanonical(code.value)
    ensures forall i: nat, len: nat :: name.Some? && LeftmostLongest(name.value, i, len) ==>
              code == Some("NK-" + name.value[i + 3..i + len])
  {
    match name
    case None => None
    case Some(s) =>
      if s == "" then
        assert !MatchAt(s, 0, 4);
        None
      else
        match FirstMatch(s)
        case None => None
        case Some((i, len)) =>
          NormalizeMatch(s, i, len);
          forall i': nat, len': nat | LeftmostLongest(s, i', len')
            ensures i' == i && len' == len
          {
            LeftmostLongestUnique(s, i, len, i', len');
          }
          Some(Normalize(s[i..i + len]))
  }

  /** Deriving a code from a code gives it back unchanged. */
  lemma RederiveIsIdentity(code: string)
    requires IsCanonical(code)
    ensures Derive(Some(code)) == Some(code)
  {
    assert MatchAt(code, 0, |code|);
    assert LeftmostLongest(code, 0, |code|);
    var d := Derive(Some(code));
    assert d == Some("NK-" + code[3..|code|]);
    assert code == "NK-" + code[3..|code|];
  }

  /**
   * A match that cannot be extended and has no match starting before it is
   * the one the ad code is taken from.
   */
  lemma DeriveFromMaximalMatch(s: string, i: nat, n: nat)
    requires MatchAt(s, i, n)
    requires i + n == |s| || !IsDigit(s[i + n])
    requires forall p: nat :: p < i ==> !StartsMatch(s, p)
    ensures Derive(Some(s)) == Some("NK-" + s[i + 3..i + n])
  {
    forall l: nat | MatchAt(s, i, l) ensures l <= n {
    }
    forall p: nat, l: nat | p < i && MatchAt(s, p, l) ensures false {
      MatchStarts(s, p, l);
    }
    assert LeftmostLongest(s, i, n);
  }

  // The example strings are passed as parameters pinned by `requires`: a
  // literal argument makes the verifier unfold the scan character by
  // character, which exhausts its resource budget.

  /** The leftmost match wins, and its whole digit run is kept. */
  lemma LeftmostMatchExample(a: string)
    requires a == "nk_07 promo NK-9"
    ensures Derive(Some(a)) == Some("NK-07")
  {
    DeriveFromMaximalMatch(a, 0, 5);
    assert "NK-" + a[3..5] == "NK-07";
  }

  /** An underscore separator is turned into a hyphen. */
  lemma UnderscoreExample(b: string)
    requires b == "NK_123 Summer Sale"
    ensures Derive(Some(b)) == Some("NK-123")
  {
    assert MatchAt(b, 0, 6);
    assert !IsDigit(b[6]);
    DeriveFromMaximalMatch(b, 0, 6);
    assert "NK-" + b[3..6] == "NK-123";
  }

  /** A name without the pattern, an empty name and an absent name give no code. */
  lemma NoCodeExamples()
    ensures Derive(Some("Generic Ad")) == None
    ensures Derive(Some("")) == None
    ensures Derive(None) == None
  {
    var c := "Generic Ad";
    assert !HasMatch(c) by {
      forall i: nat, len: nat | MatchAt(c, i, len) ensures false {
      }
    }
  }
}
