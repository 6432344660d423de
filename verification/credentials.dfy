/** The challenge-response credential the modem expects at login: the user's
    password stretched twice with PBKDF2, once per device-issued salt. */
module Credentials {
  import opened Wrappers
  import opened Text

  /** PBKDF2 (section 5.2 of RFC 8018) with HMAC-SHA-256 as its pseudo-random function,
      as `(password, salt, iteration count, key length in bytes) -> derived key`. */
  type Pbkdf2 = (seq<byte>, seq<byte>, nat, nat) -> seq<byte>

  /** The one property of the key-derivation function the exporter relies on:
      it returns exactly as many bytes as it is asked for. */
  ghost predicate ProducesKeyLength(pbkdf2: Pbkdf2) {
    forall password, salt, iterations, keyLength ::
      |pbkdf2(password, salt, iterations, keyLength)| == keyLength
  }

  const Iterations: nat := 0x3e8
  const DerivedKeyLength: nat := 0x80
  /** Only this many leading bytes of the derived key are used. */
  const KeptBytes: nat := 16

  /** The bytes of an ASCII string, one per character. */
  function AsciiBytes(s: string): (r: seq<byte>)
    requires IsAscii(s)
    ensures |r| == |s|
  {
    seq(|s|, i requires 0 <= i < |s| => s[i] as int as byte)
  }

  /** One derivation stage: PBKDF2 of `key` under `salt`, truncated to its first
      16 bytes and written as lower-case hexadecimal text. */
  function DoPbkdf2NotCoded(pbkdf2: Pbkdf2, key: string, salt: string): (r: string)
    requires ProducesKeyLength(pbkdf2)
    ensures |r| == 2 * KeptBytes && IsLowerHex(r)
  {
    var derived := pbkdf2(Utf8Encode(key), Utf8Encode(salt), Iterations, DerivedKeyLength);
    HexEncode(derived[..KeptBytes])
  }

  /** A stage yields 32 lower-case hex digits that decode back to the first 16 bytes of
      PBKDF2 applied to the UTF-8 bytes of key and salt. */
  lemma DoPbkdf2NotCodedHex(pbkdf2: Pbkdf2, key: string, salt: string)
    requires ProducesKeyLength(pbkdf2)
    ensures var r := DoPbkdf2NotCoded(pbkdf2, key, salt);
            && |r| == 2 * KeptBytes && IsLowerHex(r)
            && HexDecode(r) == Some(pbkdf2(Utf8Encode(key), Utf8Encode(salt), Iterations, DerivedKeyLength)[..KeptBytes])
  {
    var derived := pbkdf2(Utf8Encode(key), Utf8Encode(salt), Iterations, DerivedKeyLength);
    HexDecodeEncode(derived[..KeptBytes]);
  }

  /** The login password: the first stage binds the password to `salt`, the second
      re-derives from the first stage's hexadecimal TEXT (not its bytes) under `saltWebUI`. */
  function GetLoginPassword(pbkdf2: Pbkdf2, password: string, salt: string, saltWebUI: string): (r: string)
    requires ProducesKeyLength(pbkdf2)
    ensures |r| == 2 * KeptBytes && IsLowerHex(r)
  {
    DoPbkdf2NotCoded(pbkdf2, DoPbkdf2NotCoded(pbkdf2, password, salt), saltWebUI)
  }

  /** The login password is 32 lower-case hex digits: the first 16 bytes of PBKDF2 applied
      to the ASCII bytes of the first stage's hex text, which in turn encodes the first
      16 bytes of PBKDF2 applied to the password's UTF-8 bytes. */
  lemma GetLoginPasswordStages(pbkdf2: Pbkdf2, password: string, salt: string, saltWebUI: string)
    requires ProducesKeyLength(pbkdf2)
    ensures var r := GetLoginPassword(pbkdf2, password, salt, saltWebUI);
            |r| == 2 * KeptBytes && IsLowerHex(r)
    ensures var stageOne := DoPbkdf2NotCoded(pbkdf2, password, salt);
            var r := GetLoginPassword(pbkdf2, password, salt, saltWebUI);
            IsAscii(stageOne)
            && HexDecode(stageOne)
               == Some(pbkdf2(Utf8Encode(password), Utf8Encode(salt), Iterations, DerivedKeyLength)[..KeptBytes])
            && HexDecode(r)
               == Some(pbkdf2(AsciiBytes(stageOne), Utf8Encode(saltWebUI), Iterations, DerivedKeyLength)[..KeptBytes])
  {
    var stageOne := DoPbkdf2NotCoded(pbkdf2, password, salt);
    DoPbkdf2NotCodedHex(pbkdf2, password, salt);
    DoPbkdf2NotCodedHex(pbkdf2, stageOne, saltWebUI);
    assert IsAscii(stageOne) by {
      forall i | 0 <= i < |stageOne| ensures stageOne[i] as int < 0x80 {
        assert IsLowerHexDigit(stageOne[i]);
      }
    }
    assert Utf8Encode(stageOne) == AsciiBytes(stageOne);
  }
}
