/**
 * The session-participant registry of lib/sessionParticipants/index.js: an
 * ordered list of the Service Provider sessions of one browser principal,
 * with lookup, FIFO peek and removal by identity match.
 */
module Participants {
  import opened Js

  /** One Service Provider session. Every field may be `undefined`. */
  datatype Participant = Participant(
    serviceProviderId: Option<string>,
    sessionIndex: Option<string>,
    nameId: Option<string>,
    nameIdFormat: Option<string>,
    serviceProviderLogoutURL: Option<string>,
    serviceProviderLogoutBinding: Option<string>,
    cert: Option<string>,
    thumbprint: Option<string>)

  /**
   * The predicate returned by `matchingIndex`: when the stored
   * `serviceProviderId` and the queried issuer are both truthy they must be
   * equal; the session index and the NameID must always be strictly equal
   * (`undefined === undefined` holds).
   */
  predicate Matches(p: Participant, issuer: Option<string>, sessionIndex: Option<string>, nameId: Option<string>) {
    if Truthy(p.serviceProviderId) && Truthy(issuer) && p.serviceProviderId != issuer then false
    else p.sessionIndex == sessionIndex && p.nameId == nameId
  }

  /** `Array.prototype.findIndex` with the `matchingIndex` predicate: -1 when nothing matches. */
  function FindIndex(ps: seq<Participant>, issuer: Option<string>, sessionIndex: Option<string>, nameId: Option<string>): (r: int)
    ensures -1 <= r < |ps|
    ensures r >= 0 ==> Matches(ps[r], issuer, sessionIndex, nameId)
    ensures r >= 0 ==> forall j :: 0 <= j < r ==> !Matches(ps[j], issuer, sessionIndex, nameId)
    ensures r == -1 <==> forall j :: 0 <= j < |ps| ==> !Matches(ps[j], issuer, sessionIndex, nameId)
  {
    if ps == [] then -1
    else if Matches(ps[0], issuer, sessionIndex, nameId) then 0
    else
      var k := FindIndex(ps[1..], issuer, sessionIndex, nameId);
      if k == -1 then -1 else k + 1
  }

  /** What `get` hands to its callback: the first participant, in list order, that matches. */
  function Find(ps: seq<Participant>, issuer: Option<string>, sessionIndex: Option<string>, nameId: Option<string>): (r: Option<Participant>)
    ensures r.None? <==> forall j :: 0 <= j < |ps| ==> !Matches(ps[j], issuer, sessionIndex, nameId)
    ensures r.Some? ==> exists j :: 0 <= j < |ps| && ps[j] == r.value && Matches(ps[j], issuer, sessionIndex, nameId)
                                    && forall k :: 0 <= k < j ==> !Matches(ps[k], issuer, sessionIndex, nameId)
  {
    var k := FindIndex(ps, issuer, sessionIndex, nameId);
    if k >= 0 then Some(ps[k]) else None
  }

  /**
   * The effect of `remove`: the new list and the element handed to the
   * callback. An empty list or a falsy issuer removes nothing; otherwise the
   * first match is spliced out.
   */
  function Removal(ps: seq<Participant>, issuer: Option<string>, sessionIndex: Option<string>, nameId: Option<string>): (r: (seq<Participant>, Option<Participant>))
    ensures ps == [] || !Truthy(issuer) ==> r == (ps, None)
    ensures r.1.None? ==> r.0 == ps
    ensures ps != [] && Truthy(issuer) ==>
              (r.1.None? <==> forall j :: 0 <= j < |ps| ==> !Matches(ps[j], issuer, sessionIndex, nameId))
    ensures r.1.Some? ==> |r.0| == |ps| - 1
    ensures r.1.Some? ==>
              exists k :: 0 <= k < |ps| && ps[k] == r.1.value && r.0 == ps[..k] + ps[k + 1..]
                          && Matches(ps[k], issuer, sessionIndex, nameId)
                          && forall j :: 0 <= j < k ==> !Matches(ps[j], issuer, sessionIndex, nameId)
  {
    if |ps| == 0 || !Truthy(issuer) then (ps, None)
    else
      var k := FindIndex(ps, issuer, sessionIndex, nameId);
      if k > -1 then (ps[..k] + ps[k + 1..], Some(ps[k])) else (ps, None)
  }

  /** The `SessionParticipants` object; `participants` is its `_participants` array. */
  class SessionParticipants {
    var participants: seq<Participant>

    /** `new SessionParticipants(sessions)`: `sessions || []`. */
    constructor (sessions: Option<seq<Participant>>)
      ensures participants == if sessions.Some? then sessions.value else []
    {
      participants := if sessions.Some? then sessions.value else [];
    }

    /** `get`: the first matching participant; the list is not changed. */
    method Get(issuer: Option<string>, sessionIndex: Option<string>, nameId: Option<string>) returns (s: Option<Participant>)
      ensures s == Find(participants, issuer, sessionIndex, nameId)
    {
      var k := FindIndex(participants, issuer, sessionIndex, nameId);
      s := if k >= 0 then Some(participants[k]) else None;
    }

    /** `hasElements`: whether any participant is left. */
    method HasElements() returns (b: bool)
      ensures b <==> participants != []
    {
      b := |participants| > 0;
    }

    /** `getFirst`: the earliest participant, without removing it; `undefined` when empty. */
    method GetFirst() returns (next: Option<Participant>)
      ensures participants == [] ==> next.None?
      ensures participants != [] ==> next == Some(participants[0])
    {
      next := None;
      var has := HasElements();
      if has {
        next := Some(participants[0]);
      }
    }

    /** `remove`: splices out the first match; see `Removal`. */
    method Remove(issuer: Option<string>, sessionIndex: Option<string>, nameId: Option<string>) returns (removed: Option<Participant>)
      modifies this
      ensures (participants, removed) == Removal(old(participants), issuer, sessionIndex, nameId)
    {
      if |participants| == 0 || !Truthy(issuer) {
        return None;
      }
      var k := FindIndex(participants, issuer, sessionIndex, nameId);
      removed := None;
      if k > -1 {
        removed := Some(participants[k]);
        participants := participants[..k] + participants[k + 1..];
      }
    }
  }

  /**
   * Registry examples: a participant stored with issuer "sp1" is found
   * by "sp1" and by an absent issuer, not by "sp2";
   * removing with an absent issuer is a no-op and removing with "sp1"
   * empties the list.
   */
  lemma RegistryExamples(p: Participant)
    requires p.serviceProviderId == Some("sp1") && p.sessionIndex == Some("i1") && p.nameId == Some("u1")
    ensures Find([p], Some("sp1"), Some("i1"), Some("u1")) == Some(p)
    ensures Find([p], Some("sp2"), Some("i1"), Some("u1")) == None
    ensures Find([p], None, Some("i1"), Some("u1")) == Some(p)
    ensures Removal([p], None, Some("i1"), Some("u1")) == ([p], None)
    ensures Removal([p], Some("sp1"), Some("i1"), Some("u1")) == ([], Some(p))
  {
    assert Matches(p, Some("sp1"), Some("i1"), Some("u1"));
    assert !Matches(p, Some("sp2"), Some("i1"), Some("u1"));
    assert Matches(p, None, Some("i1"), Some("u1"));
    assert [p][..0] + [p][1..] == [];
  }

  /** A participant without a truthy `serviceProviderId` can be found by its stored fields but not removed by them. */
  lemma {:induction false} NoIssuerIsNeverRemoved(ps: seq<Participant>, p: Participant)
    requires p in ps && !Truthy(p.serviceProviderId)
    ensures Find(ps, p.serviceProviderId, p.sessionIndex, p.nameId).Some?
    ensures Removal(ps, p.serviceProviderId, p.sessionIndex, p.nameId) == (ps, None)
  {
    var j :| 0 <= j < |ps| && ps[j] == p;
    assert Matches(ps[j], p.serviceProviderId, p.sessionIndex, p.nameId);
  }
}
