/** The text predicates that the engine's validators share. */
module Text {
  /** unicode.IsSpace */
  predicate IsSpace(c: char) {
    '\t' <= c <= '\r' || c == ' ' || c == '\U{85}' || c == '\U{A0}' || c == '\U{1680}' || '\U{2000}' <= c <= '\U{200A}'
    || c == '\U{2028}' || c == '\U{2029}' || c == '\U{202F}' || c == '\U{205F}' || c == '\U{3000}'
  }

  /** Empty after trimming. */
  predicate Blank(s: string) {
    forall i :: 0 <= i < |s| ==> IsSpace(s[i])
  }

  /** strings.TrimSpace: the longest part that neither begins nor ends with a space. */
  function Trimmed(s: string): string
    decreases |s|
  {
    if s == [] then s
    else if IsSpace(s[0]) then Trimmed(s[1..])
    else if IsSpace(s[|s| - 1]) then Trimmed(s[..|s| - 1])
    else s
  }

  lemma {:induction false} BlankIsTrimmedAway(s: string)
    ensures Blank(s) <==> Trimmed(s) == ""
    decreases |s|
  {
    hide IsSpace;
    if s != [] {
      if IsSpace(s[0]) {
        BlankIsTrimmedAway(s[1..]);
        assert forall i :: 0 < i < |s| ==> s[i] == s[1..][i - 1];
      } else if IsSpace(s[|s| - 1]) {
        BlankIsTrimmedAway(s[..|s| - 1]);
      }
    }
  }

  predicate IsHex(c: char) {
    '0' <= c <= '9' || 'a' <= c <= 'f' || 'A' <= c <= 'F'
  }

  /** "sha256:" followed by 64 hexadecimal digits. */
  predicate ValidDigest(s: string) {
    |s| == 71 && s[..7] == "sha256:" && forall i :: 7 <= i < 71 ==> IsHex(s[i])
  }

  predicate HexDigits(s: string) {
    forall i :: 0 <= i < |s| ==> s[i] in "0123456789abcdefABCDEF"
  }

  lemma HexIs(c: char)
    ensures IsHex(c) <==> c in "0123456789abcdefABCDEF"
  {
    var digits := "0123456789abcdefABCDEF";
    if '0' <= c <= '9' {
      assert digits[c as int - '0' as int] == c;
    } else if 'a' <= c <= 'f' {
      assert digits[10 + (c as int - 'a' as int)] == c;
    } else if 'A' <= c <= 'F' {
      assert digits[16 + (c as int - 'A' as int)] == c;
    }
  }

  /** A digest is a name of 32 bytes in either case. */
  lemma {:induction false} DigestIff(s: string)
    ensures ValidDigest(s) <==> exists hex :: |hex| == 64 && HexDigits(hex) && s == "sha256:" + hex
  {
    var prefix := "sha256:";
    forall c
      ensures IsHex(c) <==> c in "0123456789abcdefABCDEF"
    {
      HexIs(c);
    }
    hide IsHex;
    if ValidDigest(s) {
      var hex := s[7..];
      assert s == prefix + hex;
      assert forall i :: 0 <= i < 64 ==> hex[i] == s[7 + i];
      assert HexDigits(hex);
    }
    if hex :| |hex| == 64 && HexDigits(hex) && s == prefix + hex {
      assert s[..7] == prefix;
      assert forall i :: 7 <= i < 71 ==> s[i] == hex[i - 7];
    }
  }

  function Zeros(n: nat): (s: string)
    ensures |s| == n && forall i :: 0 <= i < n ==> s[i] == '0'
  {
    if n == 0 then "" else Zeros(n - 1) + "0"
  }

  /** A digest for examples. */
  const DIGEST := "sha256:" + Zeros(64)

  lemma DigestIsValid()
    ensures ValidDigest(DIGEST)
  {
    var prefix := "sha256:";
    assert DIGEST[..7] == prefix && forall i :: 7 <= i < 71 ==> DIGEST[i] == Zeros(64)[i - 7];
  }
}
