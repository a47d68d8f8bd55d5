/** The eUICC as the eSIM write protocol sees it: profiles, receipts, and writes that happen whole or not at all. */
module EsimCard {
  import opened Prelude

  /** A profile's state; other values than the two the standard names are reported as they are. */
  datatype Standing = Enabled | Disabled | Other

  datatype Profile = Profile(iccid: string, standing: Standing, operational: bool, nickname: string)

  datatype Card = Card(eid: string, profiles: seq<Profile>, receipts: seq<nat>)

  datatype Write =
    | Enable(iccid: string) | Disable(iccid: string) | Delete(iccid: string) | Rename(iccid: string, name: string)

  /** No two profiles share an ICCID. */
  predicate Distinct(profiles: seq<Profile>) {
    forall i, j :: 0 <= i < j < |profiles| ==> profiles[i].iccid != profiles[j].iccid
  }

  function Lookup(profiles: seq<Profile>, iccid: string): (p: Option<Profile>)
    ensures p.Some? ==> p.value.iccid == iccid && p.value in profiles
    ensures p.None? <==> forall q :: q in profiles ==> q.iccid != iccid
  {
    if profiles == [] then None
    else if profiles[0].iccid == iccid then Some(profiles[0])
    else Lookup(profiles[1..], iccid)
  }

  /** ICCIDs of the enabled profiles, in the card's order. */
  function EnabledOnes(profiles: seq<Profile>): seq<string> {
    if profiles == [] then []
    else (if profiles[0].standing == Enabled then [profiles[0].iccid] else []) + EnabledOnes(profiles[1..])
  }

  /** What a write makes of one profile; `None` when it is deleted. */
  function Written(p: Profile, w: Write): Option<Profile> {
    match w
    case Enable(iccid) =>
      // SGP.22 section 5.7.16: the profile that was enabled becomes disabled.
      Some(if p.iccid == iccid then p.(standing := Enabled)
           else if p.standing == Enabled then p.(standing := Disabled)
           else p)
    case Disable(iccid) => Some(if p.iccid == iccid then p.(standing := Disabled) else p)
    case Delete(iccid) => if p.iccid == iccid then None else Some(p)
    case Rename(iccid, name) => Some(if p.iccid == iccid then p.(nickname := name) else p)
  }

  function WrittenAll(profiles: seq<Profile>, w: Write): seq<Profile> {
    if profiles == [] then []
    else (match Written(profiles[0], w) case Some(p) => [p] case None => []) + WrittenAll(profiles[1..], w)
  }

  /** The card after a write it applied; `more` are the receipts the change created. */
  function Applied(card: Card, w: Write, more: seq<nat>): Card {
    card.(profiles := WrittenAll(card.profiles, w), receipts := card.receipts + more)
  }

  /** Whether the profiles show the requested state. */
  predicate Shows(profiles: seq<Profile>, w: Write) {
    var p := Lookup(profiles, w.iccid);
    match w
    case Enable(_) => p.Some? && p.value.standing == Enabled
    case Disable(_) => p.Some? && p.value.standing == Disabled
    case Delete(_) => p.None?
    case Rename(_, name) => p.Some? && p.value.nickname == name
  }

  lemma {:induction false} WrittenKeepsIccids(profiles: seq<Profile>, w: Write)
    ensures forall p :: p in WrittenAll(profiles, w) ==>
              exists q :: q in profiles && q.iccid == p.iccid && Written(q, w) == Some(p)
    ensures forall q :: q in profiles && Written(q, w).Some? ==> Written(q, w).value in WrittenAll(profiles, w)
  {
    if profiles != [] {
      WrittenKeepsIccids(profiles[1..], w);
    }
  }

  /** An applied write shows, whatever the profiles were, as long as its profile is there. */
  lemma {:induction false} AppliedShows(profiles: seq<Profile>, w: Write)
    requires Lookup(profiles, w.iccid).Some?
    ensures Shows(WrittenAll(profiles, w), w)
  {
    WrittenKeepsIccids(profiles, w);
    var after := WrittenAll(profiles, w);
    var target := Lookup(profiles, w.iccid).value;
    if w.Delete? {
      assert forall p :: p in after ==> p.iccid != w.iccid;
    } else {
      assert Written(target, w).value in after;
      assert Lookup(after, w.iccid).Some?;
      var shown := Lookup(after, w.iccid).value;
      assert shown in after;
    }
  }

  /** A switch leaves exactly the profile it was asked for enabled, or none. */
  lemma {:induction false} SwitchLeavesOne(profiles: seq<Profile>, w: Write)
    requires Distinct(profiles) && (w.Enable? || w.Disable?)
    requires w.Enable? ==> Lookup(profiles, w.iccid).Some?
    requires w.Disable? ==> forall p :: p in profiles && p.standing == Enabled ==> p.iccid == w.iccid
    ensures EnabledOnes(WrittenAll(profiles, w)) == if w.Enable? then [w.iccid] else []
  {
    if w.Disable? {
      NoneEnabled(profiles, w);
    } else if profiles[0].iccid == w.iccid {
      NoneEnabled(profiles[1..], w);
    } else {
      SwitchLeavesOne(profiles[1..], w);
    }
  }

  lemma {:induction false} NoneEnabled(profiles: seq<Profile>, w: Write)
    requires w.Enable? || w.Disable?
    requires w.Enable? ==> forall p :: p in profiles ==> p.iccid != w.iccid
    requires w.Disable? ==> forall p :: p in profiles && p.standing == Enabled ==> p.iccid == w.iccid
    ensures EnabledOnes(WrittenAll(profiles, w)) == []
  {
    if profiles != [] {
      NoneEnabled(profiles[1..], w);
    }
  }

  lemma LookupFirst(p: Profile, rest: seq<Profile>, iccid: string)
    ensures Lookup([p] + rest, iccid) == if p.iccid == iccid then Some(p) else Lookup(rest, iccid)
  {
    assert ([p] + rest)[1..] == rest;
  }

  lemma WrittenKeepsIccid(p: Profile, w: Write)
    ensures Written(p, w).Some? ==> Written(p, w).value.iccid == p.iccid
    ensures p.iccid != w.iccid ==> Written(p, w).Some?
  {
  }

  /** A write changes its own profile only, save that enabling one disables the other. */
  lemma {:induction false} OthersStay(profiles: seq<Profile>, w: Write, iccid: string)
    requires iccid != w.iccid
    ensures var before := Lookup(profiles, iccid);
            Lookup(WrittenAll(profiles, w), iccid) == if before.None? then None else Written(before.value, w)
  {
    if profiles != [] {
      hide Written;
      var p, rest := profiles[0], profiles[1..];
      OthersStay(rest, w, iccid);
      WrittenKeepsIccid(p, w);
      LookupFirst(p, rest, iccid);
      assert profiles == [p] + rest;
      if Written(p, w).Some? {
        LookupFirst(Written(p, w).value, WrittenAll(rest, w), iccid);
      } else {
        assert [] + WrittenAll(rest, w) == WrittenAll(rest, w);
      }
    }
  }
}
