/** The conversation's message list as a value: the list operations the
    screen applies to `messages`, each specified by what it does to the list,
    and the properties that make the real-time, paging and sending paths
    agree with one another. */
module MessageList {
  import opened ChatTypes

  /** Position of the first occurrence of `x` in `s` (Swift's `index(of:)`). */
  function IndexOf<T(==)>(s: seq<T>, x: T): (r: Option<nat>)
    ensures r.Some? ==> r.value < |s| && s[r.value] == x && x !in s[..r.value]
    ensures r.None? <==> x !in s
  {
    if |s| == 0 then None
    else if s[0] == x then Some(0)
    else match IndexOf(s[1..], x)
      case None => None
      case Some(k) =>
        assert s[..k + 1] == [s[0]] + s[1..][..k];
        Some(k + 1)
  }

  /** The record names of the messages, in list order. */
  function Names(ms: seq<Message>): seq<string>
  {
    seq(|ms|, i requires 0 <= i < |ms| => ms[i].id)
  }

  predicate HasId(ms: seq<Message>, id: string)
  {
    exists j :: 0 <= j < |ms| && ms[j].id == id
  }

  /** `k` is the position of the first message whose record name is `id`. */
  predicate FirstWithId(ms: seq<Message>, id: string, k: int)
  {
    0 <= k < |ms| && ms[k].id == id && forall j :: 0 <= j < k ==> ms[j].id != id
  }

  /** No two messages share a record name. */
  predicate UniqueIds(ms: seq<Message>)
  {
    forall i, j :: 0 <= i < j < |ms| ==> ms[i].id != ms[j].id
  }

  /** `k` is the position of the first occurrence of `x`. */
  predicate FirstAt(ms: seq<Message>, x: Message, k: int)
  {
    0 <= k < |ms| && ms[k] == x && forall j :: 0 <= j < k ==> ms[j] != x
  }

  /** The index lookup the change handler performs: map the messages to their
      record names and take the first index of the event's record name. */
  function IndexOfName(ms: seq<Message>, id: string): (r: Option<nat>)
    ensures r.Some? ==> FirstWithId(ms, id, r.value)
    ensures r.None? <==> !HasId(ms, id)
  {
    var names := Names(ms);
    var r := IndexOf(names, id);
    if r.Some? then
      assert forall j :: 0 <= j < r.value ==> names[..r.value][j] == ms[j].id;
      r
    else
      assert forall j :: 0 <= j < |ms| ==> names[j] == ms[j].id;
      r
  }

  /** The message the list shows for a record name: its first holder. */
  function Lookup(ms: seq<Message>, id: string): (r: Option<Message>)
    ensures r.None? <==> !HasId(ms, id)
    ensures r.Some? ==> r.value.id == id && r.value in ms
  {
    match IndexOfName(ms, id)
    case Some(i) => Some(ms[i])
    case None => None
  }

  /** A `.create` event: replace the first message with the same record name,
      or append the message when there is none. */
  function Upsert(ms: seq<Message>, m: Message): (r: seq<Message>)
    ensures HasId(ms, m.id) ==> |r| == |ms|
    ensures !HasId(ms, m.id) ==> r == ms + [m]
    ensures forall k :: FirstWithId(ms, m.id, k) ==> r[k] == m
    ensures forall j :: 0 <= j < |ms| && !FirstWithId(ms, m.id, j) ==> r[j] == ms[j]
    ensures Lookup(r, m.id) == Some(m)
  {
    match IndexOfName(ms, m.id)
    case Some(i) =>
      var r := ms[i := m];
      assert FirstWithId(r, m.id, i);
      r
    case None =>
      var r := ms + [m];
      assert FirstWithId(r, m.id, |ms|);
      r
  }

  /** An `.update` event: replace the first message with the same record
      name; nothing happens when there is none. */
  function UpdateExisting(ms: seq<Message>, m: Message): (r: seq<Message>)
    ensures |r| == |ms|
    ensures !HasId(ms, m.id) ==> r == ms
    ensures forall k :: FirstWithId(ms, m.id, k) ==> r[k] == m
    ensures forall j :: 0 <= j < |ms| && !FirstWithId(ms, m.id, j) ==> r[j] == ms[j]
    ensures HasId(ms, m.id) ==> Lookup(r, m.id) == Some(m)
  {
    match IndexOfName(ms, m.id)
    case Some(i) =>
      var r := ms[i := m];
      assert FirstWithId(r, m.id, i);
      r
    case None => ms
  }

  /** A `.delete` event: remove the first message with the record name `id`;
      nothing happens when there is none. */
  function RemoveById(ms: seq<Message>, id: string): (r: seq<Message>)
    ensures !HasId(ms, id) ==> r == ms
    ensures HasId(ms, id) ==> |r| == |ms| - 1
    ensures forall k :: FirstWithId(ms, id, k) ==>
              r == ms[..k] + ms[k + 1..] && multiset(r) + multiset{ms[k]} == multiset(ms)
  {
    match IndexOfName(ms, id)
    case Some(i) =>
      assert ms == ms[..i] + [ms[i]] + ms[i + 1..];
      ms[..i] + ms[i + 1..]
    case None => ms
  }

  /** The list after the change handler has processed `event` for `m`. */
  function ApplyChange(ms: seq<Message>, event: ChangeEvent, m: Message): (r: seq<Message>)
    ensures |r| == |ms| + (if event == Create && !HasId(ms, m.id) then 1
                           else if event == Delete && HasId(ms, m.id) then -1
                           else 0)
    ensures event == Create || (event == Update && HasId(ms, m.id)) ==> Lookup(r, m.id) == Some(m)
    ensures event == Update && !HasId(ms, m.id) ==> r == ms
  {
    match event
    case Create => Upsert(ms, m)
    case Update => UpdateExisting(ms, m)
    case Delete => RemoveById(ms, m.id)
  }

  /** `s` in the opposite order (Swift's `reversed()`). */
  function Reversed<T>(s: seq<T>): (r: seq<T>)
    ensures |r| == |s|
    ensures forall i :: 0 <= i < |s| ==> r[i] == s[|s| - 1 - i]
  {
    if |s| == 0 then [] else [s[|s| - 1]] + Reversed(s[..|s| - 1])
  }

  /** The list after a fetched page (newest first) has been merged: the page
      reversed, followed by the messages already shown. */
  function Prepended(ms: seq<Message>, page: seq<Message>): (r: seq<Message>)
    ensures |r| == |page| + |ms|
    ensures r[|page|..] == ms
    ensures forall i :: 0 <= i < |page| ==> r[i] == page[|page| - 1 - i]
  {
    Reversed(page) + ms
  }

  /** The send completion: the first slot holding the pending message gets
      the server's copy; nothing happens when the pending message is gone. */
  function ConfirmSent(ms: seq<Message>, pending: Message, sent: Message): (r: seq<Message>)
    ensures |r| == |ms|
    ensures pending !in ms ==> r == ms
    ensures forall k :: FirstAt(ms, pending, k) ==>
              r[k] == sent && forall j :: 0 <= j < |ms| && j != k ==> r[j] == ms[j]
  {
    match IndexOf(ms, pending)
    case Some(i) =>
      assert forall j :: 0 <= j < i ==> ms[..i][j] == ms[j];
      ms[i := sent]
    case None => ms
  }

  /** Oldest first by creation date: the order the screen displays. */
  predicate Chronological(ms: seq<Message>)
  {
    forall i, j :: 0 <= i < j < |ms| ==> ms[i].created <= ms[j].created
  }

  /** Newest first by creation date: the order a fetched page arrives in. */
  predicate NewestFirst(page: seq<Message>)
  {
    forall i, j :: 0 <= i < j < |page| ==> page[i].created >= page[j].created
  }

  // ---------------------------------------------------------------------
  // Properties of the real-time change events

  /** Delivering the same `.create` event twice leaves the list as one
      delivery does. */
  lemma UpsertIdempotent(ms: seq<Message>, m: Message)
    ensures Upsert(Upsert(ms, m), m) == Upsert(ms, m)
  {
  }

  /** A `.create` keeps record names unique. */
  lemma UpsertKeepsUnique(ms: seq<Message>, m: Message)
    requires UniqueIds(ms)
    ensures UniqueIds(Upsert(ms, m))
  {
  }

  /** An `.update` keeps record names unique. */
  lemma UpdateKeepsUnique(ms: seq<Message>, m: Message)
    requires UniqueIds(ms)
    ensures UniqueIds(UpdateExisting(ms, m))
  {
  }

  /** An `.update` of a message that is shown behaves as a `.create`. */
  lemma UpdateOfShownIsUpsert(ms: seq<Message>, m: Message)
    requires HasId(ms, m.id)
    ensures UpdateExisting(ms, m) == Upsert(ms, m)
  {
  }

  /** With unique record names, a `.delete` leaves no message with that
      name and keeps the names unique. */
  lemma RemoveByIdErases(ms: seq<Message>, id: string)
    requires UniqueIds(ms)
    ensures !HasId(RemoveById(ms, id), id)
    ensures UniqueIds(RemoveById(ms, id))
  {
  }

  /** A `.delete` undoes a `.create` of a message that was not shown. */
  lemma RemoveUndoesUpsert(ms: seq<Message>, m: Message)
    requires !HasId(ms, m.id)
    ensures RemoveById(Upsert(ms, m), m.id) == ms
  {
  }

  // ---------------------------------------------------------------------
  // Properties of page merging and of optimistic sending

  /** Merging an older page, newest first, in front of a chronological list
      keeps the list chronological. */
  lemma PrependedChronological(ms: seq<Message>, page: seq<Message>)
    requires Chronological(ms) && NewestFirst(page)
    requires forall p, q :: p in page && q in ms ==> p.created <= q.created
    ensures Chronological(Prepended(ms, page))
  {
  }

  /** On the first page the newest fetched message ends up last, i.e. it is
      the most recent message the screen shows. */
  lemma FirstPageNewestIsLast(page: seq<Message>)
    requires |page| > 0
    ensures Prepended([], page)[|page| - 1] == page[0]
  {
  }

  /** The optimistic send round trip: appending a pending message and then
      confirming it leaves the server's copy in its place at the end. */
  lemma ConfirmAfterAppend(ms: seq<Message>, pending: Message, sent: Message)
    requires pending !in ms
    ensures ConfirmSent(ms + [pending], pending, sent) == ms + [sent]
  {
  }

  /** The send completion and the channel's `.create` event for the same
      message may arrive in either order: when record names are unique and
      the server's copy keeps the pending message's record name, both orders
      give the same list. */
  lemma ConfirmAndCreateCommute(ms: seq<Message>, pending: Message, sent: Message)
    requires UniqueIds(ms) && pending in ms && sent.id == pending.id
    ensures Upsert(ConfirmSent(ms, pending, sent), sent) == ConfirmSent(Upsert(ms, sent), pending, sent)
  {
  }
}
