/** The ordered queue as a sequence of items with distinct uids. */
module QueueList {
  import opened Wrappers
  import opened Models

  function InsertAt(q: seq<QueueItem>, i: nat, x: QueueItem): seq<QueueItem>
    requires i <= |q|
  {
    q[..i] + [x] + q[i..]
  }

  function RemoveAt(q: seq<QueueItem>, i: nat): seq<QueueItem>
    requires i < |q|
  {
    q[..i] + q[i + 1..]
  }

  lemma InsertShifts(q: seq<QueueItem>, i: nat, x: QueueItem, j: nat)
    requires i <= |q| && j < |q|
    ensures InsertAt(q, i, x)[if j < i then j else j + 1] == q[j]
  {
  }

  lemma InsertAtEnd(q: seq<QueueItem>, x: QueueItem)
    ensures InsertAt(q, |q|, x) == q + [x]
  {
  }

  lemma RemoveInserted(q: seq<QueueItem>, i: nat, x: QueueItem)
    requires i <= |q|
    ensures RemoveAt(InsertAt(q, i, x), i) == q
  {
  }

  /** Removing an item and inserting another in its place. */
  lemma Exchange(q: seq<QueueItem>, i: nat, x: QueueItem)
    requires i < |q|
    ensures InsertAt(RemoveAt(q, i), i, x) == q[i := x]
  {
  }

  /** The items without identities and creation times. */
  function Payloads(q: seq<QueueItem>): seq<QueueItem> {
    seq(|q|, i requires 0 <= i < |q| => q[i].Payload())
  }

  lemma PayloadsOfConcat(a: seq<QueueItem>, b: seq<QueueItem>)
    ensures Payloads(a + b) == Payloads(a) + Payloads(b)
  {
  }

  ghost predicate Distinct(q: seq<QueueItem>) {
    forall i, j :: 0 <= i < j < |q| ==> q[i].uid != q[j].uid
  }

  ghost predicate Has(q: seq<QueueItem>, uid: string) {
    exists i :: 0 <= i < |q| && q[i].uid == uid
  }

  /** The first index under which `uid` is listed. */
  function IndexOf(q: seq<QueueItem>, uid: string): (r: Option<nat>)
    ensures r.Some? ==> r.value < |q| && q[r.value].uid == uid
    ensures r.Some? ==> forall j :: 0 <= j < r.value ==> q[j].uid != uid
    ensures r.None? ==> forall j :: 0 <= j < |q| ==> q[j].uid != uid
  {
    if q == [] then None
    else if q[0].uid == uid then Some(0)
    else
      var rest := IndexOf(q[1..], uid);
      assert forall j :: 0 < j < |q| ==> q[j] == q[1..][j - 1];
      if rest.None? then None else Some(rest.value + 1)
  }

  /** In a list with distinct uids every item is found where it stands. */
  lemma IndexOfAt(q: seq<QueueItem>, i: nat)
    requires Distinct(q) && i < |q|
    ensures IndexOf(q, q[i].uid) == Some(i)
  {
    var r := IndexOf(q, q[i].uid);
    assert r.Some?;
  }

  function Clamp(i: int, n: nat): (r: nat)
    ensures r <= n
    ensures 0 <= i <= n ==> r == i
    ensures i < 0 ==> r == 0
    ensures i > n ==> r == n
  {
    if i < 0 then 0 else if i > n then n else i
  }

  // ---- distinct uids are kept ---------------------------------------------------------

  lemma InsertKeepsDistinct(q: seq<QueueItem>, i: nat, x: QueueItem)
    requires Distinct(q) && i <= |q| && forall j :: 0 <= j < |q| ==> q[j].uid != x.uid
    ensures Distinct(InsertAt(q, i, x))
  {
    var r := InsertAt(q, i, x);
    forall a, b | 0 <= a < b < |r|
      ensures r[a].uid != r[b].uid
    {
      assert a != i ==> r[a] == q[if a < i then a else a - 1];
      assert b != i ==> r[b] == q[if b < i then b else b - 1];
    }
  }

  lemma RemoveKeepsDistinct(q: seq<QueueItem>, i: nat)
    requires Distinct(q) && i < |q|
    ensures Distinct(RemoveAt(q, i))
    ensures forall j :: 0 <= j < |q| - 1 ==> RemoveAt(q, i)[j].uid != q[i].uid
  {
    var r := RemoveAt(q, i);
    assert forall j :: 0 <= j < |r| ==> r[j] == q[if j < i then j else j + 1];
  }
}
