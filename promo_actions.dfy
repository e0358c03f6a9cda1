/**
 * Promo codes on the server (action/promoCodeActions.ts, models/PromoCode.ts): listing newest
 * first, redeeming (`usedCount += 1`), deactivating (`expiresAt = now`) and deleting. The schema
 * has `timestamps: true`, so every `save()` also sets `updatedAt`.
 */
module PromoActions {
  import opened Wrappers
  import opened Sorting
  import ObjectId

  datatype PromoCode = PromoCode(
    id: string,
    code: string,
    expiresAt: int,
    usageLimit: int,
    usedCount: int,
    isUnique: bool,
    recipients: seq<string>,
    createdAt: int,
    updatedAt: int)

  /** `_id` is the primary key and `code` has a unique index. */
  predicate UniqueKeys(codes: seq<PromoCode>) {
    forall i, j :: 0 <= i < j < |codes| ==> codes[i].id != codes[j].id && codes[i].code != codes[j].code
  }

  /** No code has been redeemed more often than its limit allows. */
  predicate WithinLimit(codes: seq<PromoCode>) {
    forall i :: 0 <= i < |codes| ==> codes[i].usedCount <= codes[i].usageLimit
  }

  /** `findOne({code})`: the position of the record with this code. */
  function FindCode(codes: seq<PromoCode>, code: string): (r: Option<nat>)
    ensures r.Some? ==> r.value < |codes| && codes[r.value].code == code
    ensures r.None? <==> forall i :: 0 <= i < |codes| ==> codes[i].code != code
  {
    FindFirst(codes, (p: PromoCode) => p.code == code)
  }

  /** `findById(id)`: the position of the record with this `_id`. */
  function FindId(codes: seq<PromoCode>, id: string): (r: Option<nat>)
    ensures r.Some? ==> r.value < |codes| && codes[r.value].id == id
    ensures r.None? <==> forall i :: 0 <= i < |codes| ==> codes[i].id != id
  {
    FindFirst(codes, (p: PromoCode) => p.id == id)
  }

  /** With unique codes, the record found is the only one carrying that code. */
  lemma FindCodeUnique(codes: seq<PromoCode>, k: nat)
    requires UniqueKeys(codes) && k < |codes|
    ensures FindCode(codes, codes[k].code) == Some(k)
  {
  }

  function CreatedAt(p: PromoCode): int { p.createdAt }

  /** `getPromoCodes`: every stored code, newest first. */
  function ListPromoCodes(codes: seq<PromoCode>): (r: seq<PromoCode>)
    ensures multiset(r) == multiset(codes)
    ensures SortedDesc(r, CreatedAt)
  {
    SortDescSorted(codes, CreatedAt);
    SortDesc(codes, CreatedAt)
  }

  class PromoDb {
    var codes: seq<PromoCode>
  }

  /**
   * "Promo code not found", "This promo code has expired", "…has been fully redeemed", "…redeemed
   * successfully", or "Error redeeming promo code" when the save throws.
   */
  datatype RedeemOutcome = PromoNotFound | PromoExpired | FullyRedeemed | Redeemed | RedeemError

  datatype PromoUpdate<O> = PromoUpdate(codes: seq<PromoCode>, outcome: O)

  /**
   * `redeemPromoCode`: not found, then expired (`expiresAt <= now`), then used up, then one more
   * use, stored only when the save (`saveOk`) goes through.
   */
  function RedeemStep(codes: seq<PromoCode>, code: string, now: int, saveOk: bool): (r: PromoUpdate<RedeemOutcome>)
    ensures r.outcome == PromoNotFound <==> FindCode(codes, code).None?
    ensures r.outcome == PromoExpired <==>
      FindCode(codes, code).Some? && codes[FindCode(codes, code).value].expiresAt <= now
    ensures r.outcome == FullyRedeemed <==>
      && FindCode(codes, code).Some?
      && var p := codes[FindCode(codes, code).value];
      p.expiresAt > now && p.usedCount >= p.usageLimit
    ensures r.outcome == RedeemError <==>
      && FindCode(codes, code).Some?
      && var p := codes[FindCode(codes, code).value];
      p.expiresAt > now && p.usedCount < p.usageLimit && !saveOk
    ensures r.outcome != Redeemed ==> r.codes == codes
    ensures r.outcome == Redeemed ==>
      var k := FindCode(codes, code).value;
      r.codes == codes[k := codes[k].(usedCount := codes[k].usedCount + 1, updatedAt := now)]
    ensures WithinLimit(codes) ==> WithinLimit(r.codes)
    ensures UniqueKeys(codes) ==> UniqueKeys(r.codes)
  {
    match FindCode(codes, code)
    case None => PromoUpdate(codes, PromoNotFound)
    case Some(k) =>
      var p := codes[k];
      if p.expiresAt <= now then PromoUpdate(codes, PromoExpired)
      else if p.usedCount >= p.usageLimit then PromoUpdate(codes, FullyRedeemed)
      else if !saveOk then PromoUpdate(codes, RedeemError)
      else PromoUpdate(codes[k := p.(usedCount := p.usedCount + 1, updatedAt := now)], Redeemed)
  }

  method Redeem(db: PromoDb, code: string, now: int, saveOk: bool) returns (o: RedeemOutcome)
    modifies db
    ensures db.codes == RedeemStep(old(db.codes), code, now, saveOk).codes
    ensures o == RedeemStep(old(db.codes), code, now, saveOk).outcome
  {
    var found := FindCode(db.codes, code);
    if found.None? {
      return PromoNotFound;
    }
    var k := found.value;
    var p := db.codes[k];
    if p.expiresAt <= now {
      return PromoExpired;
    }
    if p.usedCount >= p.usageLimit {
      return FullyRedeemed;
    }
    if !saveOk {
      return RedeemError;
    }
    p := p.(usedCount := p.usedCount + 1, updatedAt := now);
    db.codes := db.codes[k := p];
    o := Redeemed;
  }

  /** A code whose limit is 0 can never be redeemed. */
  lemma ZeroLimitNeverRedeemed(codes: seq<PromoCode>, code: string, now: int, saveOk: bool)
    requires FindCode(codes, code).Some?
    requires var p := codes[FindCode(codes, code).value]; p.usageLimit == 0 && p.usedCount >= 0
    ensures RedeemStep(codes, code, now, saveOk).outcome != Redeemed
  {
  }

  /** A code with limit `n` is redeemed at most `n` times, whatever else happens in between. */
  lemma {:induction false} RedeemBounded(codes: seq<PromoCode>, code: string, attempts: seq<Attempt>)
    requires WithinLimit(codes)
    ensures WithinLimit(RedeemAll(codes, code, attempts))
    decreases |attempts|
  {
    if attempts != [] {
      RedeemBounded(RedeemStep(codes, code, attempts[0].now, attempts[0].saveOk).codes, code, attempts[1..]);
    }
  }

  /** One redeem request: its time and whether its save goes through. */
  datatype Attempt = Attempt(now: int, saveOk: bool)

  /** Redeeming the same code once for each of the given attempts. */
  function RedeemAll(codes: seq<PromoCode>, code: string, attempts: seq<Attempt>): seq<PromoCode>
    decreases |attempts|
  {
    if attempts == [] then codes
    else RedeemAll(RedeemStep(codes, code, attempts[0].now, attempts[0].saveOk).codes, code, attempts[1..])
  }

  /**
   * What `deactivatePromoCode` and `deletePromoCode` report. `ByIdError` is the catch's reply: a
   * malformed id makes the lookup throw, and so does a failing write.
   */
  datatype ByIdOutcome = ByIdError | IdNotFound | Done

  /** `deactivatePromoCode`: the code now expires at this instant, once the save (`saveOk`) goes through. */
  function DeactivateStep(codes: seq<PromoCode>, id: string, now: int, saveOk: bool): (r: PromoUpdate<ByIdOutcome>)
    ensures r.outcome == ByIdError <==> !ObjectId.Valid(id) || (FindId(codes, id).Some? && !saveOk)
    ensures r.outcome == IdNotFound <==> ObjectId.Valid(id) && FindId(codes, id).None?
    ensures r.outcome != Done ==> r.codes == codes
    ensures r.outcome == Done ==>
      var k := FindId(codes, id).value;
      r.codes == codes[k := codes[k].(expiresAt := now, updatedAt := now)]
    ensures WithinLimit(codes) ==> WithinLimit(r.codes)
    ensures UniqueKeys(codes) ==> UniqueKeys(r.codes)
  {
    if !ObjectId.Valid(id) then PromoUpdate(codes, ByIdError)
    else match FindId(codes, id)
      case None => PromoUpdate(codes, IdNotFound)
      case Some(k) =>
        if !saveOk then PromoUpdate(codes, ByIdError)
        else PromoUpdate(codes[k := codes[k].(expiresAt := now, updatedAt := now)], Done)
  }

  method Deactivate(db: PromoDb, id: string, now: int, saveOk: bool) returns (o: ByIdOutcome)
    modifies db
    ensures db.codes == DeactivateStep(old(db.codes), id, now, saveOk).codes
    ensures o == DeactivateStep(old(db.codes), id, now, saveOk).outcome
  {
    if !ObjectId.Valid(id) {
      return ByIdError;
    }
    var found := FindId(db.codes, id);
    if found.None? {
      return IdNotFound;
    }
    if !saveOk {
      return ByIdError;
    }
    var k := found.value;
    var p := db.codes[k];
    p := p.(expiresAt := now, updatedAt := now);
    db.codes := db.codes[k := p];
    o := Done;
  }

  /** Once deactivated, a code is refused as expired at that instant and at every later one. */
  lemma DeactivatedStaysExpired(codes: seq<PromoCode>, id: string, now: int, later: int, saveOk: bool)
    requires UniqueKeys(codes) && later >= now
    requires DeactivateStep(codes, id, now, true).outcome == Done
    ensures var k := FindId(codes, id).value;
      var after := DeactivateStep(codes, id, now, true).codes;
      RedeemStep(after, codes[k].code, later, saveOk) == PromoUpdate(after, PromoExpired)
  {
    var k := FindId(codes, id).value;
    var after := DeactivateStep(codes, id, now, true).codes;
    FindCodeUnique(after, k);
  }

  /**
   * `findByIdAndDelete`: the record with this id is removed, the others keep their order. The call
   * (`deleteOk`) throws before it can report a missing record.
   */
  function DeleteStep(codes: seq<PromoCode>, id: string, deleteOk: bool): (r: PromoUpdate<ByIdOutcome>)
    ensures r.outcome == ByIdError <==> !ObjectId.Valid(id) || !deleteOk
    ensures r.outcome == IdNotFound <==> ObjectId.Valid(id) && deleteOk && FindId(codes, id).None?
    ensures r.outcome != Done ==> r.codes == codes
    ensures r.outcome == Done ==>
      var k := FindId(codes, id).value;
      r.codes == codes[..k] + codes[k + 1..]
  {
    if !ObjectId.Valid(id) || !deleteOk then PromoUpdate(codes, ByIdError)
    else match FindId(codes, id)
      case None => PromoUpdate(codes, IdNotFound)
      case Some(k) => PromoUpdate(codes[..k] + codes[k + 1..], Done)
  }

  method Delete(db: PromoDb, id: string, deleteOk: bool) returns (o: ByIdOutcome)
    modifies db
    ensures db.codes == DeleteStep(old(db.codes), id, deleteOk).codes
    ensures o == DeleteStep(old(db.codes), id, deleteOk).outcome
  {
    if !ObjectId.Valid(id) || !deleteOk {
      return ByIdError;
    }
    var found := FindId(db.codes, id);
    if found.None? {
      return IdNotFound;
    }
    var k := found.value;
    db.codes := db.codes[..k] + db.codes[k + 1..];
    o := Done;
  }

  /** With unique ids, a delete removes exactly the records carrying that id and keeps all others. */
  lemma DeleteExactlyThatId(codes: seq<PromoCode>, id: string)
    requires UniqueKeys(codes) && DeleteStep(codes, id, true).outcome == Done
    ensures var after := DeleteStep(codes, id, true).codes;
      && |after| == |codes| - 1
      && (forall p :: p in after <==> p in codes && p.id != id)
  {
    var k := FindId(codes, id).value;
    var after := DeleteStep(codes, id, true).codes;
    forall p
      ensures p in after <==> p in codes && p.id != id
    {
      if p in codes && p.id != id {
        var j :| 0 <= j < |codes| && codes[j] == p;
        assert j != k;
        if j < k {
          assert after[j] == p;
        } else {
          assert after[j - 1] == p;
        }
      }
      if p in after {
        var j :| 0 <= j < |after| && after[j] == p;
        if j < k {
          assert codes[j] == p;
        } else {
          assert codes[j + 1] == p;
        }
      }
    }
  }
}
