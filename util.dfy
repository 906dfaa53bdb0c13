/** Helpers for message text: how many SMS parts an encoded message needs,
    and whether a text has characters outside ASCII. */
module Util {

  /** The most bytes a message can have and still go out as one part. */
  const SINGLE_PART_BYTES: nat := 160
  /** Bytes per part of a longer message: 160 less a 7-byte user data header. */
  const PART_BYTES: nat := 153
  /** Bytes per part of a longer UCS2 message, kept even so that no character
      is split between parts. */
  const UCS2_PART_BYTES: nat := 132

  function PartBytes(ucs2: bool): (m: nat)
    ensures m > 0
  {
    if ucs2 then UCS2_PART_BYTES else PART_BYTES
  }

  /** The number of parts for a message of `encodedLength` bytes: one when it
      fits in a single message, otherwise the fewest parts of PartBytes(ucs2)
      bytes that hold it. */
  function MessageCount(encodedLength: nat, ucs2: bool): (parts: nat)
    ensures parts >= 1
    ensures encodedLength <= SINGLE_PART_BYTES ==> parts == 1
    ensures encodedLength > SINGLE_PART_BYTES ==>
      parts * PartBytes(ucs2) >= encodedLength && (parts - 1) * PartBytes(ucs2) < encodedLength
  {
    if encodedLength > SINGLE_PART_BYTES then (encodedLength - 1) / PartBytes(ucs2) + 1 else 1
  }

  /** The part count is the ceiling of the length divided by the part size. */
  lemma MessageCountIsCeiling(encodedLength: nat, ucs2: bool)
    requires encodedLength > SINGLE_PART_BYTES
    ensures MessageCount(encodedLength, ucs2) ==
      (encodedLength + PartBytes(ucs2) - 1) / PartBytes(ucs2)
  {
  }

  /** A longer message never needs fewer parts. */
  lemma MessageCountMonotonic(shorter: nat, longer: nat, ucs2: bool)
    requires shorter <= longer
    ensures MessageCount(shorter, ucs2) <= MessageCount(longer, ucs2)
  {
  }

  /** Whether some character of `input` has a code point above 127. */
  method ContainsSpecialCharacters(input: string) returns (found: bool)
    ensures found <==> exists i :: 0 <= i < |input| && input[i] as int > 127
  {
    for i := 0 to |input|
      invariant forall j :: 0 <= j < i ==> input[j] as int <= 127
    {
      if input[i] as int > 127 {
        return true;
      }
    }
    return false;
  }
}
