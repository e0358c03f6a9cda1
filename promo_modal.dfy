/**
 * The promo-code management panel (components/settings/PromoCodeManagementModal.tsx): the
 * all/active/expired filter, each card's status label, and the local list kept after a redeem or
 * a delete.
 */
module PromoModal {
  import opened Sorting
  import opened PromoActions

  /** A card is valid ("Active") when it has not expired and still has uses left. */
  predicate IsActive(p: PromoCode, now: int) {
    p.expiresAt > now && p.usedCount < p.usageLimit
  }

  /** The filter test: "active", "expired", and anything else (the "all" tab) keeps every code. */
  predicate Shown(filter: string, p: PromoCode, now: int) {
    if filter == "active" then p.expiresAt > now && p.usedCount < p.usageLimit
    else if filter == "expired" then p.expiresAt <= now || p.usedCount >= p.usageLimit
    else true
  }

  function FilterPromoCodes(list: seq<PromoCode>, filter: string, now: int): (r: seq<PromoCode>)
    ensures forall i :: 0 <= i < |r| ==> r[i] in list && Shown(filter, r[i], now)
    ensures forall i :: 0 <= i < |list| && Shown(filter, list[i], now) ==> list[i] in r
  {
    Filter(list, p => Shown(filter, p, now))
  }

  /** The "all" tab shows the list exactly as fetched. */
  lemma {:induction false} AllShowsEverything(list: seq<PromoCode>, now: int)
    ensures FilterPromoCodes(list, "all", now) == list
  {
    if list != [] {
      AllShowsEverything(list[1..], now);
      assert list == [list[0]] + list[1..];
    }
  }

  /** "active" and "expired" split the list: every code is on exactly one of the two tabs, in fetched order. */
  lemma ActiveExpiredPartition(list: seq<PromoCode>, now: int)
    ensures forall p :: Shown("active", p, now) <==> IsActive(p, now)
    ensures forall p :: Shown("expired", p, now) <==> !IsActive(p, now)
    ensures |FilterPromoCodes(list, "active", now)| + |FilterPromoCodes(list, "expired", now)| == |list|
    ensures multiset(FilterPromoCodes(list, "active", now)) + multiset(FilterPromoCodes(list, "expired", now))
            == multiset(list)
    ensures IsSubsequence(FilterPromoCodes(list, "active", now), list)
    ensures IsSubsequence(FilterPromoCodes(list, "expired", now), list)
  {
    FilterPartition(list, p => Shown("active", p, now), p => Shown("expired", p, now));
    FilterSubsequence(list, p => Shown("active", p, now));
    FilterSubsequence(list, p => Shown("expired", p, now));
  }

  /** The card's label: "Expired" before "Fully redeemed" before "Active". */
  function StatusLabel(p: PromoCode, now: int): (text: string)
    ensures text == "Active" <==> IsActive(p, now)
    ensures text == "Expired" <==> p.expiresAt <= now
    ensures text == "Fully redeemed" <==> p.expiresAt > now && p.usedCount >= p.usageLimit
  {
    if p.expiresAt <= now then "Expired"
    else if p.usedCount >= p.usageLimit then "Fully redeemed"
    else "Active"
  }

  /** A card reads "Active" (and offers Deactivate) exactly when the server would accept a redeem of its code. */
  lemma ActiveCardRedeemable(codes: seq<PromoCode>, k: nat, now: int)
    requires UniqueKeys(codes) && k < |codes|
    ensures StatusLabel(codes[k], now) == "Active" <==> RedeemStep(codes, codes[k].code, now, true).outcome == Redeemed
  {
    FindCodeUnique(codes, k);
  }

  /** The panel's state: the list it shows and the text in the redeem box. */
  datatype Panel = Panel(list: seq<PromoCode>, redeemCode: string)

  /**
   * `handleRedeem`: an empty box makes no server call; a successful redeem refetches the list and
   * clears the box; a refused one leaves the panel as it was.
   */
  function HandleRedeem(panel: Panel, codes: seq<PromoCode>, now: int, saveOk: bool): (r: (Panel, seq<PromoCode>))
    ensures panel.redeemCode == "" ==> r == (panel, codes)
    ensures panel.redeemCode != "" ==> r.1 == RedeemStep(codes, panel.redeemCode, now, saveOk).codes
    ensures panel.redeemCode != "" && RedeemStep(codes, panel.redeemCode, now, saveOk).outcome == Redeemed ==>
      r.0 == Panel(ListPromoCodes(r.1), "")
    ensures RedeemStep(codes, panel.redeemCode, now, saveOk).outcome != Redeemed ==> r == (panel, codes)
  {
    if panel.redeemCode == "" then (panel, codes)
    else
      var step := RedeemStep(codes, panel.redeemCode, now, saveOk);
      if step.outcome == Redeemed then (Panel(ListPromoCodes(step.codes), ""), step.codes)
      else (panel, codes)
  }

  function HasNotId(id: string): PromoCode -> bool {
    (p: PromoCode) => p.id != id
  }

  /** `handleDelete` after the server deleted `id`: the local list loses exactly the entries with that id. */
  function AfterDelete(list: seq<PromoCode>, id: string): (r: seq<PromoCode>)
    ensures forall i :: 0 <= i < |r| ==> r[i].id != id && r[i] in list
    ensures forall i :: 0 <= i < |list| && list[i].id != id ==> list[i] in r
    ensures IsSubsequence(r, list)
  {
    FilterSubsequence(list, HasNotId(id));
    Filter(list, HasNotId(id))
  }

  /** `handleDelete`: the local list changes only when the server reports the delete done. */
  function HandleDelete(list: seq<PromoCode>, codes: seq<PromoCode>, id: string, deleteOk: bool): (r: (seq<PromoCode>, seq<PromoCode>))
    ensures r.1 == DeleteStep(codes, id, deleteOk).codes
    ensures DeleteStep(codes, id, deleteOk).outcome == Done ==> r.0 == AfterDelete(list, id)
    ensures DeleteStep(codes, id, deleteOk).outcome != Done ==> r == (list, codes)
  {
    var step := DeleteStep(codes, id, deleteOk);
    if step.outcome == Done then (AfterDelete(list, id), step.codes) else (list, step.codes)
  }
}
