/**
 * Which message an ACK reaches. A message counts as a response unless it is a request, so an ACK of a response may be
 * taken for one of an ACK that waits in the outbox.
 */
module BlipAcks {
  import opened Bytes
  import opened Common
  import opened BlipFrame
  import opened BlipOutbox
  import opened BlipEndpoint
  import opened BlipConservation
  import opened BlipFlow
  import Varint

  predicate IsAckWith(e: Endpoint, id: Id, no: nat) { id in e.live && IsAck(e.live[id].kind) && e.live[id].no == no }

  /** An ACK with this number stands in the outbox before the message, or anywhere if the message is not there. */
  predicate AckBefore(e: Endpoint, id: Id, no: nat) {
    exists i :: 0 <= i < |e.outbox| && IsAckWith(e, e.outbox[i].id, no) && NotAmong(e.outbox[..i], id)
  }

  predicate NotAmong(q: seq<Item>, id: Id) { forall j | 0 <= j < |q| :: q[j].id != id }

  predicate IsResponse(m: Out) { !m.kind.Request? && !IsAck(m.kind) }

  /** No other response has the number of this one. */
  predicate OnlyResponse(e: Endpoint, id: Id)
    requires id in e.live
  {
    forall j | j in e.live && IsResponse(e.live[j]) && e.live[j].no == e.live[id].no :: j == id
  }

  predicate Hits(e: Endpoint, q: seq<Item>, i: nat, no: nat)
    requires i < |q|
  {
    q[i].id in e.live && Matches(e.live[q[i].id], no, true)
  }

  /** The search of the outbox stops at the first message that matches. */
  lemma {:induction false} FirstHit(e: Endpoint, q: seq<Item>, no: nat) returns (i: nat)
    ensures i <= |q| && forall j: nat | j < i :: !Hits(e, q, j, no)
    ensures i < |q| ==> Hits(e, q, i, no) && FindItem(e, q, no, true) == Some(q[i].id)
    ensures i == |q| ==> FindItem(e, q, no, true) == None
  {
    if q == [] || Hits(e, q, 0, no) {
      i := 0;
    } else {
      i := FirstHit(e, q[1..], no);
      forall j: nat | j < i + 1 ensures !Hits(e, q, j, no) {
        if j > 0 {
          assert !Hits(e, q[1..], j - 1, no);
        }
      }
      i := i + 1;
    }
  }

  /** A response of which something has been sent is in the outbox or on ice. */
  lemma InReach(e: Endpoint, id: Id)
    requires BoxesOk(e) && Flows(e) && id in e.live && e.live[id].bytesSent > 0
    ensures NotAmong(e.outbox, id) ==> CountIds(e.icebox, id) > 0
  {
    assert Places(e, id) == 1;
    if NotAmong(e.outbox, id) {
      CountNone(e.outbox, id);
      CountNone(e.wayOut, id);
    }
  }

  lemma {:induction false} CountNone(q: seq<Item>, id: Id)
    requires NotAmong(q, id)
    ensures Count(q, id) == 0
  {
    if q != [] {
      CountNone(q[1..], id);
    }
  }

  /** What is on ice is no ACK. */
  lemma IcedIsData(e: Endpoint, id: Id)
    requires Flows(e) && id in e.icebox
    ensures id in e.live && !IsAck(e.live[id].kind)
  {
  }

  /** The search of the icebox finds the response if it is there. */
  lemma IceSearch(e: Endpoint, id: Id)
    requires Flows(e) && id in e.live && IsResponse(e.live[id]) && OnlyResponse(e, id) && CountIds(e.icebox, id) > 0
    ensures FindFrozen(e, e.icebox, e.live[id].no, true) == Some(id)
  {
    var no := e.live[id].no;
    IcedIsFound(e, e.icebox, id, no, true);
    FrozenIsLive(e, e.icebox, no, true);
    IcedIsData(e, FindFrozen(e, e.icebox, no, true).value);
    hide Flows, FindFrozen;
  }

  /** The search finds an ACK that stands before the response, and otherwise the response. */
  lemma SearchFinds(e: Endpoint, id: Id)
    requires BoxesOk(e) && Flows(e) && id in e.live && IsResponse(e.live[id]) && OnlyResponse(e, id)
    requires e.live[id].bytesSent > 0
    ensures var no := e.live[id].no;
            var found, frozen := FindItem(e, e.outbox, no, true), FindFrozen(e, e.icebox, no, true);
            if AckBefore(e, id, no) then found.Some? && found.value != id && found.value in e.live
            else found == Some(id) || (found.None? && frozen == Some(id))
  {
    var no, q := e.live[id].no, e.outbox;
    InReach(e, id);
    hide BoxesOk, FindFrozen, FindItem;
    var i := FirstHit(e, q, no);
    if i == |q| {
      NoHit(e, id, no);
      hide OnlyResponse, AckBefore;
      IceSearch(e, id);
    } else {
      hide Flows;
      HitIs(e, id, no, i);
    }
  }

  lemma NoHit(e: Endpoint, id: Id, no: nat)
    requires id in e.live && IsResponse(e.live[id]) && e.live[id].no == no
    requires forall j: nat | j < |e.outbox| :: !Hits(e, e.outbox, j, no)
    ensures !AckBefore(e, id, no) && NotAmong(e.outbox, id)
  {
    forall j: nat | j < |e.outbox| ensures !IsAckWith(e, e.outbox[j].id, no) && e.outbox[j].id != id {
      assert !Hits(e, e.outbox, j, no);
    }
  }

  lemma HitIs(e: Endpoint, id: Id, no: nat, i: nat)
    requires id in e.live && IsResponse(e.live[id]) && e.live[id].no == no && OnlyResponse(e, id)
    requires i < |e.outbox| && Hits(e, e.outbox, i, no) && forall j: nat | j < i :: !Hits(e, e.outbox, j, no)
    ensures AckBefore(e, id, no) <==> e.outbox[i].id != id
  {
    var q := e.outbox;
    if q[i].id != id {
      assert IsAckWith(e, q[i].id, no);
      forall j | 0 <= j < i ensures q[..i][j].id != id {
        assert !Hits(e, q, j, no);
      }
      assert NotAmong(q[..i], id);
    } else {
      forall k | 0 <= k < |q| && IsAckWith(e, q[k].id, no) ensures !NotAmong(q[..k], id) {
        assert Hits(e, q, k, no);
        assert q[..k][i].id == id;
      }
    }
  }

  /**
   * An ACK with something new reaches a response if and only if no ACK with its number stands before it in the outbox;
   * otherwise nothing changes for the response. One that is on ice and is reached goes on if it may.
   */
  lemma AckReachesIff(e: Endpoint, id: Id, body: seq<byte>)
    requires BoxesOk(e) && Flows(e) && id in e.live && IsResponse(e.live[id]) && OnlyResponse(e, id)
    requires Varint.Read(body).Complete? && e.live[id].acked < Varint.Read(body).value <= e.live[id].bytesSent
    ensures var r, no, c := ReceivedAck(e, e.live[id].no, true, body), e.live[id].no, Varint.Read(body).value;
            && r.Received? && id in r.e.live
            && (r.e.live[id].acked == c <==> !AckBefore(e, id, no))
            && (!AckBefore(e, id, no) ==> r.e.live[id] == Acked(e.live[id], c))
            && (AckBefore(e, id, no) ==> r.e.live[id] == e.live[id] && r.e.icebox == e.icebox && r.e.outbox == e.outbox)
  {
    hide FindItem, FindFrozen, Requeued, WithoutId, ItemOf, Varint.Read, BoxesOk, Flows, AckBefore, OnlyResponse;
    SearchFinds(e, id);
  }
}
