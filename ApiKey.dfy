/** The single API key: one `localStorage` slot, created lazily as `ldh_`
    followed by a version-4 UUID with its dashes removed (RFC 9562, section
    5.4), compared by exact equality, and overwritten by the reset on the API
    page. The UUID generator is a parameter: `uuid` is the text it produced. */
module ApiKey {
  import opened Strings
  import opened Records

  const KeyPrefix := "ldh_"

  /** The canonical text of a version-4 UUID: 8-4-4-4-12 lower-case hex digits
      separated by dashes, version digit 4, variant digit one of 8, 9, a, b. */
  predicate IsUuidV4Text(u: string) {
    && |u| == 36
    && u[8] == '-' && u[13] == '-' && u[18] == '-' && u[23] == '-'
    && AllHex(u[..8]) && AllHex(u[9..13]) && AllHex(u[14..18])
    && AllHex(u[19..23]) && AllHex(u[24..])
    && u[14] == '4'
    && u[19] in "89ab"
  }

  /** `` `ldh_${uuid.replace(/-/g, '')}` `` */
  function NewKey(uuid: string): (key: string)
    ensures StartsWith(key, KeyPrefix) && '-' !in key[|KeyPrefix|..]
    ensures |key| <= |KeyPrefix| + |uuid|
  {
    KeyPrefix + StripDashes(uuid)
  }

  /** Hex digits contain no dash. */
  lemma HexHasNoDash(s: string)
    requires AllHex(s)
    ensures '-' !in s
  {
  }

  /** Removing the dashes from `x-y`, where `y` is hex, leaves `x` stripped followed by `y`. */
  lemma StripJoin(x: string, y: string)
    requires AllHex(y)
    ensures StripDashes(x + "-" + y) == StripDashes(x) + y
  {
    var dash := "-";
    HexHasNoDash(y);
    calc {
      StripDashes(x + dash + y);
      { StripDashesAppend(x + dash, y); }
      StripDashes(x + dash) + StripDashes(y);
      { StripDashesAppend(x, dash); }
      StripDashes(x) + StripDashes(dash) + StripDashes(y);
      { assert dash[1..] == []; StripDashesNoDash(y); }
      StripDashes(x) + [] + y;
      { assert StripDashes(x) + [] == StripDashes(x); }
      StripDashes(x) + y;
    }
  }

  /** A UUID loses exactly its four dashes. */
  lemma StripUuid(uuid: string)
    requires IsUuidV4Text(uuid)
    ensures StripDashes(uuid) == uuid[..8] + uuid[9..13] + uuid[14..18] + uuid[19..23] + uuid[24..]
  {
    var a, b, c, d, e := uuid[..8], uuid[9..13], uuid[14..18], uuid[19..23], uuid[24..];
    assert uuid == a + "-" + b + "-" + c + "-" + d + "-" + e;
    HexHasNoDash(a);
    StripDashesNoDash(a);
    StripJoin(a, b);
    StripJoin(a + "-" + b, c);
    StripJoin(a + "-" + b + "-" + c, d);
    StripJoin(a + "-" + b + "-" + c + "-" + d, e);
  }

  /** A key made from a UUID is `ldh_` and the UUID's 32 hex digits in order:
      36 characters, the version digit at position 16. */
  lemma NewKeyFormat(uuid: string)
    requires IsUuidV4Text(uuid)
    ensures |NewKey(uuid)| == 36
    ensures StartsWith(NewKey(uuid), KeyPrefix)
    ensures NewKey(uuid)[4..] == uuid[..8] + uuid[9..13] + uuid[14..18] + uuid[19..23] + uuid[24..]
    ensures AllHex(NewKey(uuid)[4..])
    ensures NewKey(uuid)[16] == '4'
  {
    StripUuid(uuid);
    var body := NewKey(uuid)[4..];
    assert body == StripDashes(uuid);
    forall i | 0 <= i < |body|
      ensures IsHexDigit(body[i])
    {
      if i < 8 { assert body[i] == uuid[i]; }
      else if i < 12 { assert body[i] == uuid[i + 1]; }
      else if i < 16 { assert body[i] == uuid[i + 2]; }
      else if i < 20 { assert body[i] == uuid[i + 3]; }
      else { assert body[i] == uuid[i + 4]; }
    }
    assert body[12] == uuid[14];
  }

  /** The `localStorage` slot `local_data_haven_api_key` holding the key, which
      the reset on the API page writes too; `None` is `getItem` returning null. */
  class KeySlot {
    var stored: Option<string>

    constructor ()
      ensures stored == None
    {
      stored := None;
    }

    /** `storedKey === providedKey` */
    predicate Accepts(provided: string)
      reads this
    {
      stored == Some(provided)
    }

    /** `getOrCreateApiKey`: a stored (non-empty) key is returned and nothing is
        written; otherwise a new key is made from `uuid`, stored and returned. */
    method GetOrCreateApiKey(uuid: string) returns (key: string)
      modifies this
      ensures old(stored).Some? && old(stored).value != "" ==> key == old(stored).value && stored == old(stored)
      ensures old(stored) == None || old(stored) == Some("") ==> key == NewKey(uuid) && stored == Some(key)
      ensures Accepts(key) && key != ""
    {
      if stored.Some? && stored.value != "" {
        key := stored.value;
      } else {
        key := NewKey(uuid);
        stored := Some(key);
      }
    }

    /** `validateApiKey`: true exactly for the stored key; false for every string
        when no key is stored. Reads the slot, writes nothing. */
    method ValidateApiKey(provided: string) returns (ok: bool)
      ensures ok <==> stored.Some? && stored.value == provided
      ensures stored == None ==> !ok
    {
      ok := stored == Some(provided);
    }

    /** The reset on the API page: a new key from `uuid` overwrites the slot. */
    method ResetApiKey(uuid: string) returns (key: string)
      modifies this
      ensures key == NewKey(uuid) && stored == Some(key)
    {
      key := NewKey(uuid);
      stored := Some(key);
    }
  }

  /** Two consecutive `getOrCreateApiKey` calls return the same key, whatever
      the generator produces the second time. */
  method GetOrCreateIsIdempotent(slot: KeySlot, uuid1: string, uuid2: string) returns (first: string, second: string)
    modifies slot
    ensures first == second
    ensures slot.stored == Some(first)
  {
    first := slot.GetOrCreateApiKey(uuid1);
    second := slot.GetOrCreateApiKey(uuid2);
  }

  /** After a reset the previous key stops validating and the new one validates. */
  method ResetRevokesPreviousKey(slot: KeySlot, uuid: string) returns (previousOk: bool, newOk: bool)
    requires slot.stored.Some?
    requires NewKey(uuid) != slot.stored.value
    modifies slot
    ensures !previousOk && newOk
  {
    var previous := slot.stored.value;
    var replacement := slot.ResetApiKey(uuid);
    previousOk := slot.ValidateApiKey(previous);
    newOk := slot.ValidateApiKey(replacement);
  }
}
