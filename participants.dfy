/** The participant map: user records keyed by user record name, merged
    from fetch results and used to find the sender of a message. */
module Participants {
  import opened ChatTypes

  /** The record names of a set of record IDs. */
  function NamesOf(keys: set<RecordID>): set<string>
  {
    set k | k in keys :: k.name
  }

  /** No two fetched record IDs share a record name (true when every ID has
      the record type "user", as the fetch requests them). */
  predicate DistinctNames(fetched: map<RecordID, Record>)
  {
    forall k1, k2 :: k1 in fetched && k2 in fetched && k1.name == k2.name ==> k1 == k2
  }

  /** `after` is `before` with the entries of `fetched` whose keys are in
      `keys` written under their record names, in some iteration order: a
      name shared by several keys holds the record of one of them. */
  ghost predicate MergedOver(before: map<string, Record>, fetched: map<RecordID, Record>,
                             keys: set<RecordID>, after: map<string, Record>)
    ensures MergedOver(before, fetched, keys, after) ==>
              forall n :: n in before && n in after && after[n] != before[n] ==>
                exists k :: k in keys && k in fetched && k.name == n && after[n] == fetched[k]
  {
    && keys <= fetched.Keys
    && after.Keys == before.Keys + NamesOf(keys)
    && (forall n :: n in after && n !in NamesOf(keys) ==> after[n] == before[n])
    && (forall n :: n in NamesOf(keys) ==> exists k :: k in keys && k.name == n && after[n] == fetched[k])
  }

  /** `after` is `before` with every fetched entry merged in. */
  ghost predicate MergedFrom(before: map<string, Record>, fetched: map<RecordID, Record>,
                             after: map<string, Record>)
    ensures MergedFrom(before, fetched, after) ==>
              before.Keys <= after.Keys && forall k :: k in fetched ==> k.name in after
  {
    MergedOver(before, fetched, fetched.Keys, after)
  }

  /** Before the loop runs, nothing has been merged. */
  lemma MergedOverNothing(before: map<string, Record>, fetched: map<RecordID, Record>)
    ensures MergedOver(before, fetched, {}, before)
  {
  }

  /** One iteration of the merge loop: writing the entry of one more key. */
  lemma MergedOverStep(before: map<string, Record>, fetched: map<RecordID, Record>,
                       keys: set<RecordID>, after: map<string, Record>, k: RecordID)
    requires MergedOver(before, fetched, keys, after)
    requires k in fetched && k !in keys
    ensures MergedOver(before, fetched, keys + {k}, after[k.name := fetched[k]])
  {
  }

  /** When fetched record names are distinct, each fetched record is found
      under its own record name after the merge. */
  lemma MergeOverwritesFetched(before: map<string, Record>, fetched: map<RecordID, Record>,
                               after: map<string, Record>, k: RecordID)
    requires MergedFrom(before, fetched, after) && DistinctNames(fetched)
    requires k in fetched
    ensures k.name in after && after[k.name] == fetched[k]
  {
  }

  /** `records` lists the fetched records of the distinct keys `keys`, one
      entry per key in the same order. */
  ghost predicate ListedOnce(fetched: map<RecordID, Record>, keys: seq<RecordID>, records: seq<Record>)
  {
    && |keys| == |records|
    && (forall i, j :: 0 <= i < j < |keys| ==> keys[i] != keys[j])
    && (forall i :: 0 <= i < |keys| ==> keys[i] in fetched && records[i] == fetched[keys[i]])
  }

  /** Listing one more key that was not listed yet. */
  lemma ListedOnceStep(fetched: map<RecordID, Record>, keys: seq<RecordID>, records: seq<Record>, k: RecordID)
    requires ListedOnce(fetched, keys, records)
    requires k in fetched && k !in keys
    ensures ListedOnce(fetched, keys + [k], records + [fetched[k]])
  {
  }

  /** A listing that covers every fetched key holds exactly the fetched
      records: one entry per key, each a fetched record, none missing. */
  lemma ListedOnceCovers(fetched: map<RecordID, Record>, keys: seq<RecordID>, records: seq<Record>)
    requires ListedOnce(fetched, keys, records)
    requires forall k :: k in fetched ==> k in keys
    ensures |records| == |fetched|
    ensures forall v :: v in records ==> v in fetched.Values
    ensures forall k :: k in fetched ==> fetched[k] in records
  {
    // `keys` is duplicate-free and covers the key set, so it has its size.
    var s := set i | 0 <= i < |keys| :: keys[i];
    assert s == fetched.Keys;
    DistinctSize(keys);
    forall v | v in records
      ensures v in fetched.Values
    {
      var i :| 0 <= i < |records| && records[i] == v;
      assert keys[i] in fetched;
    }
    forall k | k in fetched
      ensures fetched[k] in records
    {
      var i :| 0 <= i < |keys| && keys[i] == k;
      assert records[i] == fetched[k];
    }
  }

  /** A duplicate-free sequence has as many elements as its set. */
  lemma {:induction false} DistinctSize<T>(keys: seq<T>)
    requires forall i, j :: 0 <= i < j < |keys| ==> keys[i] != keys[j]
    ensures |set i | 0 <= i < |keys| :: keys[i]| == |keys|
  {
    if |keys| > 0 {
      var last := |keys| - 1;
      var front := keys[..last];
      DistinctSize(front);
      var sf := set i | 0 <= i < |front| :: front[i];
      var s := set i | 0 <= i < |keys| :: keys[i];
      assert s == sf + {keys[last]};
      assert keys[last] !in sf;
    }
  }

  /** The sender of a message: nothing while no participant has been fetched,
      otherwise the participant stored under the message's creator. */
  function SenderOf(participants: map<string, Record>, m: Message): (r: Option<Record>)
    ensures r.Some? <==> m.creator in participants
    ensures r.Some? ==> r.value == participants[m.creator]
  {
    if |participants| == 0 then None
    else if m.creator in participants then Some(participants[m.creator])
    else None
  }

  /** After a merge that fetched the creator's record, that record is the
      message's sender. */
  lemma SenderAfterMerge(before: map<string, Record>, fetched: map<RecordID, Record>,
                         after: map<string, Record>, m: Message, k: RecordID)
    requires MergedFrom(before, fetched, after) && DistinctNames(fetched)
    requires k in fetched && k.name == m.creator
    ensures SenderOf(after, m) == Some(fetched[k])
  {
  }

  /** A merge that fetched nothing under the creator's name does not change
      the message's sender. */
  lemma SenderKeptByMerge(before: map<string, Record>, fetched: map<RecordID, Record>,
                          after: map<string, Record>, m: Message)
    requires MergedFrom(before, fetched, after)
    requires forall k :: k in fetched ==> k.name != m.creator
    ensures SenderOf(after, m) == SenderOf(before, m)
  {
  }

  /** The screen's own display name after a participant fetch: the fetched
      name of the current user when there is one, else unchanged. */
  function DisplayNameAfter(participants: map<string, Record>, senderId: string, current: string): (r: string)
    ensures senderId in participants && participants[senderId].displayName.Some? ==>
              r == participants[senderId].displayName.value
    ensures !(senderId in participants && participants[senderId].displayName.Some?) ==> r == current
  {
    if senderId in participants && participants[senderId].displayName.Some?
    then participants[senderId].displayName.value
    else current
  }

  /** After a merge of records with distinct names that fetched the current
      user's record with a display name, that name is the screen's. */
  lemma DisplayNameFromFetched(before: map<string, Record>, fetched: map<RecordID, Record>,
                               after: map<string, Record>, senderId: string, current: string,
                               k: RecordID)
    requires MergedFrom(before, fetched, after) && DistinctNames(fetched)
    requires k in fetched && k.name == senderId && fetched[k].displayName.Some?
    ensures DisplayNameAfter(after, senderId, current) == fetched[k].displayName.value
  {
  }
}
