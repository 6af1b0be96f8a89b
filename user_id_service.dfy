/**
 * Model of src/services/userIdService.ts: the user-ID validator and the
 * holder of the current ID, backed by one `localStorage` slot (the key
 * `saved_user_id`). Strings are sequences of Unicode scalar values; their
 * JavaScript `length` counts UTF-16 code units.
 */
module UserIdService {
  import opened Wrappers

  /** The characters `String.prototype.trim` strips: ECMAScript WhiteSpace and LineTerminator. */
  predicate IsJsWhitespace(c: char)
  {
    || c == '\t' || c == '\n' || c == '\U{000B}' || c == '\U{000C}' || c == '\r'
    || c == ' ' || c == '\U{00A0}' || c == '\U{1680}'
    || ('\U{2000}' <= c <= '\U{200A}')
    || c == '\U{2028}' || c == '\U{2029}' || c == '\U{202F}' || c == '\U{205F}'
    || c == '\U{3000}' || c == '\U{FEFF}'
  }

  predicate AllWhitespace(s: string)
  {
    forall k :: 0 <= k < |s| ==> IsJsWhitespace(s[k])
  }

  /** JavaScript's `length`: characters outside the Basic Multilingual Plane take two UTF-16 code units. */
  function JsLength(s: string): (n: nat)
    ensures |s| <= n <= 2 * |s|
    ensures (forall k :: 0 <= k < |s| ==> s[k] < '\U{10000}') ==> n == |s|
  {
    if s == [] then 0 else (if s[0] < '\U{10000}' then 1 else 2) + JsLength(s[1..])
  }

  /** The index of the first non-whitespace character at or after `from`, or `|s|` if there is none. */
  function SkipLeading(s: string, from: nat): (i: nat)
    requires from <= |s|
    ensures from <= i <= |s|
    ensures forall k :: from <= k < i ==> IsJsWhitespace(s[k])
    ensures i < |s| ==> !IsJsWhitespace(s[i])
    decreases |s| - from
  {
    if from < |s| && IsJsWhitespace(s[from]) then SkipLeading(s, from + 1) else from
  }

  /** One past the last non-whitespace character before `hi`, or `lo` if there is none from `lo` on. */
  function SkipTrailing(s: string, lo: nat, hi: nat): (j: nat)
    requires lo <= hi <= |s|
    ensures lo <= j <= hi
    ensures forall k :: j <= k < hi ==> IsJsWhitespace(s[k])
    ensures j > lo ==> !IsJsWhitespace(s[j - 1])
    decreases hi
  {
    if hi > lo && IsJsWhitespace(s[hi - 1]) then SkipTrailing(s, lo, hi - 1) else hi
  }

  /**
   * `String.prototype.trim`: the input is the result with whitespace, and
   * only whitespace, around it.
   */
  function Trim(s: string): (r: string)
    ensures |r| <= |s|
    ensures r == [] || (!IsJsWhitespace(r[0]) && !IsJsWhitespace(r[|r| - 1]))
    ensures exists i :: 0 <= i <= |s| - |r| && r == s[i..i + |r|]
                        && AllWhitespace(s[..i]) && AllWhitespace(s[i + |r|..])
  {
    var i := SkipLeading(s, 0);
    var j := SkipTrailing(s, i, |s|);
    assert j == |s| || j > i;
    assert AllWhitespace(s[..i]) && AllWhitespace(s[j..]);
    assert 0 <= i <= |s| - |s[i..j]| && s[i..j] == s[i..i + |s[i..j]|]
           && AllWhitespace(s[..i]) && AllWhitespace(s[i + |s[i..j]|..]);
    s[i..j]
  }

  /**
   * Trimming is determined by the decomposition it undoes: whatever the
   * whitespace padding around a string with no whitespace at either end,
   * trim returns that string.
   */
  lemma {:induction false} TrimOfPadded(before: string, t: string, after: string)
    requires AllWhitespace(before) && AllWhitespace(after)
    requires t == [] || (!IsJsWhitespace(t[0]) && !IsJsWhitespace(t[|t| - 1]))
    ensures Trim(before + t + after) == t
  {
    var s := before + t + after;
    var i := SkipLeading(s, 0);
    var j := SkipTrailing(s, i, |s|);
    var n := |before|;
    if t == [] {
      assert forall k :: 0 <= k < |s| ==> IsJsWhitespace(s[k]) by {
        forall k | 0 <= k < |s| ensures IsJsWhitespace(s[k]) {
          if k < n { assert s[k] == before[k]; } else { assert s[k] == after[k - n]; }
        }
      }
      assert i == |s|;
    } else {
      assert s[n] == t[0] && s[n + |t| - 1] == t[|t| - 1];
      assert forall k :: 0 <= k < n ==> s[k] == before[k];
      assert forall k :: n + |t| <= k < |s| ==> s[k] == after[k - n - |t|];
      assert i == n;
      assert j == n + |t|;
      assert s[i..j] == t;
    }
  }

  /** Trimming twice is trimming once. */
  lemma {:induction false} TrimIdempotent(s: string)
    ensures Trim(Trim(s)) == Trim(s)
  {
    var t := Trim(s);
    assert [] + t + [] == t;
    TrimOfPadded([], t, []);
  }

  const MinLength: nat := 3
  const MaxLength: nat := 20

  /** `isValidUserId`: the trimmed ID is 3 to 20 UTF-16 code units long. */
  predicate IsValidUserId(id: string)
  {
    MinLength <= JsLength(Trim(id)) <= MaxLength
  }

  /** Validation ignores surrounding whitespace, so checking a trimmed ID again agrees with the original. */
  lemma {:induction false} ValidityIgnoresPadding(id: string)
    ensures IsValidUserId(Trim(id)) == IsValidUserId(id)
  {
    TrimIdempotent(id);
  }

  /**
   * `UserIDService`: `userId` is the current ID and `stored` is the
   * `localStorage` slot, `None` when the key is absent.
   */
  class UserIdService {
    var userId: Option<string>
    var stored: Option<string>

    /** Every ID the service holds passes validation. */
    ghost predicate Valid()
      reads this
    {
      userId.Some? ==> IsValidUserId(userId.value)
    }

    /** The service is built with whatever the storage slot held at page load, then loads it. */
    constructor (storedAtLoad: Option<string>)
      ensures Valid()
      ensures stored == storedAtLoad
      ensures userId == if storedAtLoad.Some? && storedAtLoad.value != "" && IsValidUserId(storedAtLoad.value)
                        then storedAtLoad else None
    {
      userId := None;
      stored := storedAtLoad;
      new;
      LoadSavedUserId();
    }

    /** `getUserId`: the held ID, which is always valid. */
    function GetUserId(): (r: Option<string>)
      reads this
      requires Valid()
      ensures r.Some? ==> IsValidUserId(r.value)
      ensures r == userId
    {
      userId
    }

    /** `saveUserId`: a valid ID is trimmed and written to both the field and storage; an invalid one changes nothing. */
    method SaveUserId(id: string)
      requires Valid()
      modifies this
      ensures Valid()
      ensures IsValidUserId(id) ==> userId == Some(Trim(id)) && stored == Some(Trim(id))
      ensures !IsValidUserId(id) ==> userId == old(userId) && stored == old(stored)
    {
      var trimmedId := Trim(id);
      ValidityIgnoresPadding(id);
      if IsValidUserId(trimmedId) {
        userId := Some(trimmedId);
        stored := Some(trimmedId);
      }
    }

    /**
     * `loadSavedUserId`: the stored value is adopted, untrimmed, only when it
     * is present, non-empty and valid; storage is never written.
     */
    method LoadSavedUserId()
      requires Valid()
      modifies this`userId
      ensures Valid()
      ensures stored.Some? && stored.value != "" && IsValidUserId(stored.value) ==> userId == stored
      ensures !(stored.Some? && stored.value != "" && IsValidUserId(stored.value)) ==> userId == old(userId)
    {
      var savedId := stored;
      if savedId.Some? && savedId.value != "" && IsValidUserId(savedId.value) {
        userId := savedId;
      }
    }

    /** `clearUserId`: forgets the ID and removes the storage key. */
    method ClearUserId()
      modifies this
      ensures Valid()
      ensures userId == None && stored == None
    {
      userId := None;
      stored := None;
    }

    /** `getLastUsedId`: the raw storage slot, not validated. */
    function GetLastUsedId(): (r: Option<string>)
      reads this
      ensures r == stored
    {
      stored
    }
  }

  /**
   * The last used ID is read back without validation, so it can disagree with
   * the held ID: an empty value left in storage is reported by
   * `getLastUsedId` while `getUserId` reports none.
   */
  method LastUsedIdMayDifferFromUserId() returns (held: Option<string>, lastUsed: Option<string>)
    ensures held == None && lastUsed == Some("")
  {
    var service := new UserIdService(Some(""));
    held := service.GetUserId();
    lastUsed := service.GetLastUsedId();
  }
}
