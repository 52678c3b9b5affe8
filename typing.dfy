/** The typing-indicator decision: from the users reported typing, whether
    the screen hides, shows or keeps its typing indicator. */
module Typing {
  import opened ChatTypes

  datatype TypingAction = Hide | Show | Keep

  /** The switch on the number of typing users. A single user is identified
      by parsing its canonical record-ID string with `parse`; it shows the
      indicator only when it parses and is not the current user. */
  function ActionFor(userIDs: seq<string>, senderId: string, parse: string -> Option<RecordID>): (a: TypingAction)
    ensures a == Hide <==> |userIDs| == 0
    ensures a == Keep ==> |userIDs| == 1
    ensures |userIDs| >= 2 ==> a == Show
    ensures |userIDs| == 1 ==>
              (a == Show <==> parse(userIDs[0]).Some? && parse(userIDs[0]).value.name != senderId)
  {
    if |userIDs| == 0 then Hide
    else if |userIDs| == 1 then
      match parse(userIDs[0])
      case Some(rid) => if rid.name != senderId then Show else Keep
      case None => Keep
    else Show
  }

  /** The indicator flag after `a`: display and hide set and clear it and
      leave it alone when it already has the target value. */
  function FlagAfter(flag: bool, a: TypingAction): (r: bool)
    ensures a == Keep ==> r == flag
    ensures a != Keep ==> (r <==> a == Show)
  {
    match a
    case Hide => false
    case Show => true
    case Keep => flag
  }

  /** Someone other than the current user is among the typing users. */
  predicate OtherUserTyping(userIDs: seq<string>, senderId: string, parse: string -> Option<RecordID>)
  {
    exists i :: 0 <= i < |userIDs| && parse(userIDs[i]).Some? && parse(userIDs[i]).value.name != senderId
  }

  /** For a list of distinct, well-formed user IDs, the indicator is shown
      after an event exactly when someone else is typing or it was already
      shown, and hidden when nobody is typing. */
  lemma FlagFollowsOtherTyping(userIDs: seq<string>, senderId: string,
                               parse: string -> Option<RecordID>, flag: bool)
    requires forall i :: 0 <= i < |userIDs| ==> parse(userIDs[i]).Some?
    requires forall i, j :: 0 <= i < j < |userIDs| ==> parse(userIDs[i]).value.name != parse(userIDs[j]).value.name
    ensures FlagAfter(flag, ActionFor(userIDs, senderId, parse)) ==
            (|userIDs| > 0 && (OtherUserTyping(userIDs, senderId, parse) || flag))
  {
    if |userIDs| >= 2 {
      var i := if parse(userIDs[0]).value.name != senderId then 0 else 1;
      assert parse(userIDs[i]).value.name != senderId;
    }
  }

  /** Handling the same typing event twice leaves the flag as one handling
      does. */
  lemma TypingEventIdempotent(flag: bool, userIDs: seq<string>, senderId: string,
                              parse: string -> Option<RecordID>)
    ensures var a := ActionFor(userIDs, senderId, parse);
            FlagAfter(FlagAfter(flag, a), a) == FlagAfter(flag, a)
  {
  }
}
