/**
 * The pending-code collection: record shape, the schema's required fields
 * and email normalisation, the `findOne` lookup of the verify step, the
 * `deleteMany` eviction of the request step, single-record deletion, and the
 * time-to-live rule of the `expiresAt` index.
 */
module OtpModel {
  import opened Wrappers
  import opened Text

  /** One stored pending code. `expiresAt` is in milliseconds since the epoch. */
  datatype OtpRecord = OtpRecord(id: nat, email: string, code: string, expiresAt: int)

  /** The document handed to `Otp.create`; an absent field is None. */
  datatype OtpFields = OtpFields(email: Option<string>, code: Option<string>, expiresAt: Option<int>)

  /** Mongoose's `required` check: a missing value, or an empty string after the setters, fails. */
  predicate PresentString(v: Option<string>) {
    v.Some? && v.value != []
  }

  /** The paths that failed `required`, in schema order. */
  function MissingPaths(emailOk: bool, codeOk: bool, expiresOk: bool): (m: seq<string>)
    ensures m == [] <==> emailOk && codeOk && expiresOk
    ensures "email" in m <==> !emailOk
    ensures "code" in m <==> !codeOk
    ensures "expiresAt" in m <==> !expiresOk
  {
    var e: seq<string> := if emailOk then [] else ["email"];
    var c: seq<string> := if codeOk then [] else ["code"];
    var x: seq<string> := if expiresOk then [] else ["expiresAt"];
    assert "email" != "code" && "email" != "expiresAt" && "code" != "expiresAt";
    e + c + x
  }

  /**
   * Schema validation and casting for a new record: the email goes through
   * the `lowercase` and `trim` setters; on failure the result lists the
   * paths that failed `required`, in schema order.
   */
  function CreateOtp(id: nat, f: OtpFields): (r: Result<OtpRecord, seq<string>>)
    ensures r.Success? <==>
      f.email.Some? && Normalize(f.email.value) != [] && PresentString(f.code) && f.expiresAt.Some?
    ensures r.Success? ==>
      && r.value.id == id
      && r.value.email == Normalize(f.email.value)
      && IsLower(r.value.email) && Trim(r.value.email) == r.value.email
      && r.value.code == f.code.value && r.value.expiresAt == f.expiresAt.value
    ensures r.Failure? ==>
      && ("email" in r.error <==> f.email.None? || Normalize(f.email.value) == [])
      && ("code" in r.error <==> !PresentString(f.code))
      && ("expiresAt" in r.error <==> f.expiresAt.None?)
  {
    var emailOk := f.email.Some? && Normalize(f.email.value) != [];
    var missing := MissingPaths(emailOk, PresentString(f.code), f.expiresAt.Some?);
    if missing == [] then
      NormalizeSpec(f.email.value);
      Success(OtpRecord(id, Normalize(f.email.value), f.code.value, f.expiresAt.value))
    else Failure(missing)
  }

  /** The verify step's filter `{ email, code, expiresAt: { $gt: now } }`. */
  predicate Matches(rec: OtpRecord, email: string, code: string, now: int) {
    rec.email == email && rec.code == code && rec.expiresAt > now
  }

  /** `findOne`: the index of the first matching record, in insertion order. */
  function FindUsable(otps: seq<OtpRecord>, email: string, code: string, now: int): (r: Option<nat>)
    ensures r.Some? ==> r.value < |otps| && Matches(otps[r.value], email, code, now)
    ensures r.Some? ==> forall k :: 0 <= k < r.value ==> !Matches(otps[k], email, code, now)
    ensures r.None? <==> forall k :: 0 <= k < |otps| ==> !Matches(otps[k], email, code, now)
  {
    if otps == [] then None
    else if Matches(otps[0], email, code, now) then Some(0)
    else
      match FindUsable(otps[1..], email, code, now)
      case None => None
      case Some(k) => Some(k + 1)
  }

  /** The record `findOne` returns, if any. */
  function FindRecord(otps: seq<OtpRecord>, email: string, code: string, now: int): Option<OtpRecord> {
    match FindUsable(otps, email, code, now)
    case None => None
    case Some(k) => Some(otps[k])
  }

  /** `deleteMany({ email })`: every record for the address goes, the rest keep their order. */
  function Evict(otps: seq<OtpRecord>, email: string): (r: seq<OtpRecord>)
    ensures |r| <= |otps|
    ensures forall k :: 0 <= k < |r| ==> r[k].email != email && r[k] in otps
    ensures forall k :: 0 <= k < |otps| && otps[k].email != email ==> otps[k] in r
  {
    if otps == [] then []
    else if otps[0].email == email then Evict(otps[1..], email)
    else [otps[0]] + Evict(otps[1..], email)
  }

  /** Eviction keeps each record for another address exactly as often as it was stored, and no other. */
  lemma {:induction false} EvictCounts(otps: seq<OtpRecord>, email: string)
    ensures forall x :: multiset(Evict(otps, email))[x] == if x.email == email then 0 else multiset(otps)[x]
  {
    if otps != [] {
      assert otps == [otps[0]] + otps[1..];
      EvictCounts(otps[1..], email);
    }
  }

  /** Eviction distributes over concatenation, so the kept records stay in stored order. */
  lemma {:induction false} EvictAppend(s: seq<OtpRecord>, t: seq<OtpRecord>, email: string)
    ensures Evict(s + t, email) == Evict(s, email) + Evict(t, email)
  {
    if s == [] {
      assert s + t == t;
    } else {
      assert (s + t)[1..] == s[1..] + t;
      EvictAppend(s[1..], t, email);
    }
  }

  /** `deleteOne({ _id })` of the record at index i; every other record is kept, in order. */
  function RemoveAt(otps: seq<OtpRecord>, i: nat): (r: seq<OtpRecord>)
    requires i < |otps|
    ensures |r| == |otps| - 1
    ensures forall k :: 0 <= k < i ==> r[k] == otps[k]
    ensures forall k :: i <= k < |r| ==> r[k] == otps[k + 1]
  {
    otps[..i] + otps[i + 1..]
  }

  /** The TTL index with `expires: 0` may delete a record only once its expiry instant is reached. */
  predicate TtlMayRemove(rec: OtpRecord, now: int) {
    rec.expiresAt <= now
  }

  /** No two stored records share an address. */
  predicate AtMostOnePerEmail(otps: seq<OtpRecord>) {
    forall i, j :: 0 <= i < j < |otps| ==> otps[i].email != otps[j].email
  }

  /** An expired record is never returned, whatever code is offered. */
  lemma ExpiredNeverFound(otps: seq<OtpRecord>, email: string, code: string, now: int, k: nat)
    requires k < |otps| && otps[k].expiresAt <= now
    ensures FindUsable(otps, email, code, now) != Some(k)
  {
  }

  /** Eviction keeps the single-record-per-address property. */
  lemma {:induction false} EvictKeepsAtMostOne(otps: seq<OtpRecord>, email: string)
    requires AtMostOnePerEmail(otps)
    ensures AtMostOnePerEmail(Evict(otps, email))
  {
    if otps != [] {
      var tail := otps[1..];
      assert AtMostOnePerEmail(tail) by {
        forall i, j | 0 <= i < j < |tail| ensures tail[i].email != tail[j].email {
          assert tail[i] == otps[i + 1] && tail[j] == otps[j + 1];
        }
      }
      EvictKeepsAtMostOne(tail, email);
      var rest := Evict(tail, email);
      if otps[0].email != email {
        forall k | 0 <= k < |rest| ensures rest[k].email != otps[0].email {
          assert rest[k] in tail;
          var m :| 0 <= m < |tail| && tail[m] == rest[k];
          assert otps[m + 1] == rest[k];
        }
        var r := [otps[0]] + rest;
        forall i, j | 0 <= i < j < |r| ensures r[i].email != r[j].email {
          if i > 0 {
            assert r[i] == rest[i - 1] && r[j] == rest[j - 1];
          } else {
            assert r[j] == rest[j - 1];
          }
        }
      }
    }
  }

  /**
   * Issuing: after evicting an address's records and appending a fresh one
   * for it, the fresh record is the only record for that address, and the
   * single-record-per-address property still holds.
   */
  lemma IssueLeavesOneRecord(otps: seq<OtpRecord>, rec: OtpRecord)
    requires AtMostOnePerEmail(otps)
    ensures var s := Evict(otps, rec.email) + [rec];
      && AtMostOnePerEmail(s)
      && s[|s| - 1] == rec
      && forall k :: 0 <= k < |s| && s[k].email == rec.email ==> k == |s| - 1
  {
    EvictKeepsAtMostOne(otps, rec.email);
  }

  /**
   * After issuing, a lookup for the address succeeds exactly with the new
   * code while it is unexpired: every earlier code for the address fails
   * even inside its own lifetime.
   */
  lemma {:induction false} IssuedCodeIsTheOnlyUsable(otps: seq<OtpRecord>, rec: OtpRecord, code: string, now: int)
    ensures var s := Evict(otps, rec.email) + [rec];
      FindUsable(s, rec.email, code, now) ==
        if code == rec.code && now < rec.expiresAt then Some(|s| - 1) else None
  {
    var s := Evict(otps, rec.email) + [rec];
    assert s[|s| - 1] == rec;
    assert forall k :: 0 <= k < |s| - 1 ==> s[k].email != rec.email;
  }

  /**
   * Consuming: once the matched record is deleted no record for the address
   * remains, so the same address and code (or any other code) fail afterwards.
   */
  lemma {:induction false} ConsumedCodeFails(otps: seq<OtpRecord>, email: string, code: string, now: int, code': string, later: int)
    requires AtMostOnePerEmail(otps)
    requires FindUsable(otps, email, code, now).Some?
    ensures FindUsable(RemoveAt(otps, FindUsable(otps, email, code, now).value), email, code', later).None?
  {
    var i := FindUsable(otps, email, code, now).value;
    var r := RemoveAt(otps, i);
    forall k | 0 <= k < |r| ensures r[k].email != email {
      if k < i {
        assert r[k] == otps[k];
      } else {
        assert r[k] == otps[k + 1];
      }
    }
  }

  /** Removing a record the TTL rule allows to remove never changes what a lookup at that instant returns. */
  lemma {:induction false} TtlRemovalInvisible(otps: seq<OtpRecord>, i: nat, email: string, code: string, now: int)
    requires i < |otps| && TtlMayRemove(otps[i], now)
    ensures FindRecord(RemoveAt(otps, i), email, code, now) == FindRecord(otps, email, code, now)
  {
    var r := RemoveAt(otps, i);
    match FindUsable(otps, email, code, now)
    case None =>
      forall k | 0 <= k < |r| ensures !Matches(r[k], email, code, now) {
        if k >= i { assert r[k] == otps[k + 1]; }
      }
    case Some(j) =>
      assert j != i;
      var j' := if j < i then j else j - 1;
      assert r[j'] == otps[j];
      forall k | 0 <= k < j' ensures !Matches(r[k], email, code, now) {
        if k >= i { assert r[k] == otps[k + 1]; }
      }
      assert FindUsable(r, email, code, now) == Some(j');
  }

  /** Removing one record leaves every other record unchanged and in order, and keeps the address property. */
  lemma {:induction false} RemoveAtKeepsAtMostOne(otps: seq<OtpRecord>, i: nat)
    requires i < |otps| && AtMostOnePerEmail(otps)
    ensures AtMostOnePerEmail(RemoveAt(otps, i))
  {
    var r := RemoveAt(otps, i);
    forall a, b | 0 <= a < b < |r| ensures r[a].email != r[b].email {
      var a' := if a < i then a else a + 1;
      var b' := if b < i then b else b + 1;
      assert r[a] == otps[a'] && r[b] == otps[b'];
    }
  }
}
