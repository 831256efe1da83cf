/** Storing fetched messages, and the one-shot fetch of a range
    (src/heron/ingest/collector.py, src/heron/core/storage.py). */
module Collector {
  import opened Ranges
  import opened Segments
  import opened Ingestion
  import opened CoverageSafety
  import opened CrashResume

  datatype StoreOutcome = StoredNew | StoredDuplicate | OutsideRange

  datatype CollectorResult = CollectorResult(fetched: nat, storedNew: nat, storedDuplicate: nat, outsideRange: nat)

  class EmailTable {
    var emails: map<EmailKey, EmailRow>

    constructor ()
      ensures emails == map[]
    {
      emails := map[];
    }

    /** Does nothing when the key is already present. */
    method InsertEmailIfNew(key: EmailKey, row: EmailRow) returns (inserted: bool)
      modifies this
      ensures inserted <==> key !in old(emails)
      ensures emails == InsertIfNew(old(emails), key, row)
      ensures |emails| == |old(emails)| + if inserted then 1 else 0
    {
      inserted := key !in emails;
      if inserted {
        emails := emails[key := row];
      }
    }

    /** Stores one fetched message if its date falls in the exact range. */
    method StoreIfInRange(key: EmailKey, message: Message, range: Range) returns (outcome: StoreOutcome)
      modifies this
      ensures emails == StoredIfInRange(old(emails), key, message, range)
      ensures outcome.OutsideRange? <==> !range.Contains(message.instant)
      ensures outcome.StoredNew? <==> range.Contains(message.instant) && key !in old(emails)
      ensures outcome.StoredNew? ==>
                key in emails && emails[key].internalDate == message.instant && emails[key].raw == message.raw
      ensures forall other :: other in old(emails) ==> other in emails && emails[other] == old(emails)[other]
      ensures |emails| == |old(emails)| + if outcome.StoredNew? then 1 else 0
    {
      if !range.Contains(message.instant) {
        return OutsideRange;
      }
      var inserted := InsertEmailIfNew(key, RowOf(message));
      outcome := if inserted then StoredNew else StoredDuplicate;
    }

    /** One search, then one fetch of what it found and what still exists by then, then every
        returned message in the order of the reply. Stores exactly the wanted messages of both
        moments and accounts for each of the fetched ones. */
    method FetchAndStoreRange(box: Box, searched: Mailbox, mailbox: Mailbox, range: Range, reply: seq<Uid>)
      returns (result: CollectorResult)
      requires MailboxExtends(searched, mailbox)
      requires forall u :: u in reply <==> u in Found(searched, range) && mailbox.Live(u)
      modifies this
      ensures emails == OneShot(old(emails), box, Remaining(searched, mailbox), range)
      ensures result.fetched == |reply| == result.storedNew + result.storedDuplicate + result.outsideRange
      ensures result.storedNew == |emails| - |old(emails)|
      ensures result.outsideRange == |Outside(mailbox, range, reply)|
    {
      ghost var remaining := Remaining(searched, mailbox);
      var storedNew, storedDuplicate, outsideRange := 0, 0, 0;
      var i := 0;
      while i < |reply|
        invariant 0 <= i <= |reply|
        invariant emails == StoreEach(old(emails), box, remaining, range, reply[..i])
        invariant storedNew == |emails| - |old(emails)|
        invariant outsideRange == |Outside(mailbox, range, reply[..i])|
        invariant i == storedNew + storedDuplicate + outsideRange
      {
        var uid := reply[i];
        assert uid in Found(searched, range) && remaining.ever[uid] == mailbox.ever[uid];
        assert reply[..i + 1][..i] == reply[..i];
        var outcome := StoreIfInRange(EmailKey(box, mailbox.validity, uid), mailbox.ever[uid], range);
        match outcome {
          case StoredNew => storedNew := storedNew + 1;
          case StoredDuplicate => storedDuplicate := storedDuplicate + 1;
          case OutsideRange => outsideRange := outsideRange + 1;
        }
        i := i + 1;
      }
      assert reply[..i] == reply;
      StoreEachIsOneShot(old(emails), box, remaining, range, reply);
      result := CollectorResult(|reply|, storedNew, storedDuplicate, outsideRange);
    }
  }

  /** The messages of the first moment that still exist at the second. */
  function Remaining(searched: Mailbox, now: Mailbox): Mailbox {
    searched.(gone := now.gone)
  }

  /** What the widened search selects. */
  function Found(mailbox: Mailbox, range: Range): (found: set<Uid>)
    ensures forall u :: u in found ==> u in mailbox.ever
  {
    set u | u in mailbox.ever && mailbox.Live(u) && SearchMatches(range, mailbox.ever[u].instant, mailbox.ever[u].zone)
  }

  /** The listed messages outside the exact range. */
  ghost function Outside(b: Mailbox, range: Range, uids: seq<Uid>): seq<Uid> {
    if uids == [] then [] else
    var last := uids[|uids| - 1];
    Outside(b, range, uids[..|uids| - 1]) + if last in b.ever && range.Contains(b.ever[last].instant) then [] else [last]
  }

  /** The emails after storing the listed messages one by one. */
  ghost function StoreEach(emails: map<EmailKey, EmailRow>, box: Box, b: Mailbox, range: Range, uids: seq<Uid>)
    : map<EmailKey, EmailRow>
  {
    if uids == [] then emails else
    var last := uids[|uids| - 1];
    var before := StoreEach(emails, box, b, range, uids[..|uids| - 1]);
    if last in b.ever then StoredIfInRange(before, EmailKey(box, b.validity, last), b.ever[last], range) else before
  }

  lemma {:induction false} StoreEachAdds(emails: map<EmailKey, EmailRow>, box: Box, b: Mailbox, range: Range,
                                         uids: seq<Uid>, k: EmailKey)
    ensures var after := StoreEach(emails, box, b, range, uids);
            && (k in emails ==> k in after && after[k] == emails[k])
            && (k !in emails ==>
                  (k in after <==> k.box == box && k.validity == b.validity && k.uid in uids && k.uid in b.ever
                                   && range.Contains(b.ever[k.uid].instant))
                  && (k in after ==> after[k] == RowOf(b.ever[k.uid])))
  {
    if uids != [] {
      var init := uids[..|uids| - 1];
      assert uids == init + [uids[|uids| - 1]];
      StoreEachAdds(emails, box, b, range, init, k);
    }
  }

  /** Storing the found messages one by one, in any order, is the one-shot fetch. */
  lemma {:induction false} StoreEachIsOneShot(emails: map<EmailKey, EmailRow>, box: Box, b: Mailbox, range: Range,
                                              uids: seq<Uid>)
    requires forall u :: u in uids <==> u in Found(b, range)
    ensures StoreEach(emails, box, b, range, uids) == OneShot(emails, box, b, range)
  {
    var after, once := StoreEach(emails, box, b, range, uids), OneShot(emails, box, b, range);
    forall k ensures k in after <==> k in once {
      StoreEachAdds(emails, box, b, range, uids, k);
      WantedKey(box, b, range, k);
    }
    forall k | k in after ensures after[k] == once[k] {
      StoreEachAdds(emails, box, b, range, uids, k);
      WantedKey(box, b, range, k);
    }
  }

  lemma {:induction false} WantedKey(box: Box, b: Mailbox, range: Range, k: EmailKey)
    ensures k in WantedRows(box, b, range) <==>
            k.box == box && k.validity == b.validity && k.uid in Found(b, range) && range.Contains(b.ever[k.uid].instant)
    ensures k in WantedRows(box, b, range) ==> WantedRows(box, b, range)[k] == RowOf(b.ever[k.uid])
  {
    assert k == EmailKey(k.box, k.validity, k.uid);
  }
}
