/**
 * The UUID recogniser of Util.kt: the pattern
 * `[\da-f]{8}-[\da-f]{4}-[\da-f]{4}-[\da-f]{4}-[\da-f]{12}$` used with `matches()`,
 * so the whole string must be five runs of lower-case hexadecimal digits of lengths
 * 8, 4, 4, 4 and 12 joined by single hyphens.
 */
module Util {

  /** `[\da-f]`: Java's `\d` without the Unicode flag is exactly `[0-9]`. */
  predicate IsHexDigit(c: char) {
    '0' <= c <= '9' || 'a' <= c <= 'f'
  }

  /** `[\da-f]{n}` matching all of `s`. */
  predicate HexRun(s: string, n: nat) {
    |s| == n && forall i :: 0 <= i < |s| ==> IsHexDigit(s[i])
  }

  /** The run lengths of the pattern, in order. */
  const UUIDGroups: seq<nat> := [8, 4, 4, 4, 12]

  /** `s` is entirely the runs `groups`, in order, separated by single hyphens. */
  predicate MatchesGroups(s: string, groups: seq<nat>)
    decreases |groups|
  {
    if |groups| == 0 then s == []
    else if |groups| == 1 then HexRun(s, groups[0])
    else
      groups[0] < |s| && HexRun(s[..groups[0]], groups[0]) && s[groups[0]] == '-'
      && MatchesGroups(s[groups[0] + 1..], groups[1..])
  }

  /** `String.isUUID`: the pattern matches the whole string. */
  predicate IsUUID(s: string) {
    MatchesGroups(s, UUIDGroups)
  }

  /** Positions of the four hyphens in a 36-character UUID. */
  predicate IsHyphenPosition(i: int) {
    i == 8 || i == 13 || i == 18 || i == 23
  }

  /** The character-level reading of the pattern: length 36, hyphens at 8, 13, 18 and 23,
      and a lower-case hexadecimal digit everywhere else. */
  predicate UUIDShape(s: string) {
    |s| == 36
    && forall i :: 0 <= i < |s| ==>
         (if IsHyphenPosition(i) then s[i] == '-' else IsHexDigit(s[i]))
  }

  /** A hex run followed by a hyphen and a remainder, seen position by position. */
  lemma {:induction false} SplitRun(s: string, n: nat)
    requires n < |s|
    ensures (HexRun(s[..n], n) && s[n] == '-') <==>
            ((forall i :: 0 <= i < n ==> IsHexDigit(s[i])) && s[n] == '-')
  {
    if HexRun(s[..n], n) {
      forall i | 0 <= i < n ensures IsHexDigit(s[i]) { assert s[..n][i] == s[i]; }
    }
    if (forall i :: 0 <= i < n ==> IsHexDigit(s[i])) {
      forall i | 0 <= i < n ensures IsHexDigit(s[..n][i]) { assert s[..n][i] == s[i]; }
    }
  }

  /** The pattern and the character-level reading agree on every string. */
  lemma IsUUIDIffShape(s: string)
    ensures IsUUID(s) <==> UUIDShape(s)
  {
    if IsUUID(s) {
      var s1 := s[9..];
      var s2 := s1[5..];
      var s3 := s2[5..];
      var s4 := s3[5..];
      SplitRun(s, 8);
      SplitRun(s1, 4);
      SplitRun(s2, 4);
      SplitRun(s3, 4);
      assert |s4| == 12 && |s| == 36;
      forall i | 0 <= i < |s|
        ensures if IsHyphenPosition(i) then s[i] == '-' else IsHexDigit(s[i])
      {
        if i < 9 {
        } else if i < 14 {
          assert s[i] == s1[i - 9];
        } else if i < 19 {
          assert s[i] == s2[i - 14];
        } else if i < 24 {
          assert s[i] == s3[i - 19];
        } else {
          assert s[i] == s4[i - 24];
        }
      }
    }
    if UUIDShape(s) {
      ShapeMatches(s);
    }
  }

  /** The digits `s[lo..lo + n]`, as a run of the pattern. */
  lemma HexSlice(s: string, lo: nat, n: nat)
    requires lo + n <= |s|
    requires forall i :: lo <= i < lo + n ==> IsHexDigit(s[i])
    ensures HexRun(s[lo..][..n], n)
  {
    forall i | 0 <= i < n ensures IsHexDigit(s[lo..][..n][i]) {
      assert s[lo..][..n][i] == s[lo + i];
    }
  }

  /** The character-level reading implies the pattern. */
  lemma ShapeMatches(s: string)
    requires UUIDShape(s)
    ensures IsUUID(s)
  {
    var s1 := s[9..];
    var s2 := s[14..];
    var s3 := s[19..];
    var s4 := s[24..];
    assert s1[5..] == s2 && s2[5..] == s3 && s3[5..] == s4;
    HexSlice(s, 0, 8);
    HexSlice(s, 9, 4);
    HexSlice(s, 14, 4);
    HexSlice(s, 19, 4);
    HexSlice(s, 24, 12);
    assert s[0..] == s && s4[..12] == s4;
    assert s1[4] == s[13] && s2[4] == s[18] && s3[4] == s[23];
    assert MatchesGroups(s4, [12]);
    assert MatchesGroups(s3, [4, 12]);
    assert MatchesGroups(s2, [4, 4, 12]);
    assert MatchesGroups(s1, [4, 4, 4, 12]);
    assert UUIDGroups[1..] == [4, 4, 4, 12];
  }

  /** A UUID is 36 characters long. */
  lemma UUIDLength(s: string)
    requires IsUUID(s)
    ensures |s| == 36
  {
    IsUUIDIffShape(s);
  }

  /** Upper-case hexadecimal digits are rejected. */
  lemma UpperCaseRejected(s: string, i: int)
    requires 0 <= i < |s| && 'A' <= s[i] <= 'F'
    ensures !IsUUID(s)
  {
    IsUUIDIffShape(s);
  }

  /** The match covers the whole string: a UUID with anything appended is no longer one. */
  lemma ExtendedRejected(s: string, extra: string)
    requires IsUUID(s) && extra != []
    ensures !IsUUID(s + extra)
  {
    IsUUIDIffShape(s);
    IsUUIDIffShape(s + extra);
  }
}
