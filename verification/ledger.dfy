/**
 * The chat ledger of the expense bot: the balance state machine of
 * ChatProfile (financer-bot/storage.go: ConsumeRecord, Describe) and the
 * message handler that numbers parsed records and feeds them to it
 * (financer-bot/main.go, the transaction inside getMessageHandler).
 *
 * The balance is a daily allowance: each new day of the same month adds
 * the day limit for every day passed, a new month starts again from zero,
 * and each record of the current month is subtracted.
 */
module Ledger {
  import opened Wrappers
  import opened GoText
  import opened Expenses

  /** The part of a chat profile that records change: the balance and the date of the latest record. */
  datatype Account = Account(balance: int, last: Date)

  /** The zero time.Time: January 1 of year 1, midnight. */
  const ZeroTime: Date := Date(1, 1, 1, 0)

  /**
   * What one record does to an account. A record later than the latest one
   * moves the latest date up to it, first resetting the balance on a change
   * of month or adding the allowance of the days passed on a change of day;
   * then the amount is subtracted if the record is in the (new) latest month.
   */
  function Consume(acc: Account, dayLimit: int, r: Record): (next: Account)
    ensures next.last == acc.last || next.last == r.date
    ensures !Before(next.last, acc.last) && !Before(next.last, r.date)
    ensures next.last.month != r.date.month ==> next.balance == acc.balance
  {
    var later := Before(acc.last, r.date);
    var carried :=
      if !later then acc.balance
      else if acc.last.month != r.date.month then 0
      else if acc.last.day != r.date.day then acc.balance + dayLimit * (r.date.day - acc.last.day)
      else acc.balance;
    var last := if later then r.date else acc.last;
    Account(if last.month == r.date.month then carried - r.amount else carried, last)
  }

  /** A later record in another month starts the balance again from zero, then subtracts its amount. */
  lemma NewMonthResets(acc: Account, dayLimit: int, r: Record)
    requires Before(acc.last, r.date) && acc.last.month != r.date.month
    ensures Consume(acc, dayLimit, r) == Account(-(r.amount as int), r.date)
  {
  }

  /** A later record of the same month on another day adds the allowance of the days passed. */
  lemma NewDayAddsAllowance(acc: Account, dayLimit: int, r: Record)
    requires Before(acc.last, r.date) && acc.last.month == r.date.month && acc.last.day != r.date.day
    ensures Consume(acc, dayLimit, r) == Account(acc.balance + dayLimit * (r.date.day - acc.last.day) - r.amount, r.date)
  {
  }

  /** A record that is not later than the latest one, in the latest month, only subtracts its amount. */
  lemma EarlierRecordSameMonth(acc: Account, dayLimit: int, r: Record)
    requires !Before(acc.last, r.date) && acc.last.month == r.date.month
    ensures Consume(acc, dayLimit, r) == Account(acc.balance - r.amount, acc.last)
  {
  }

  /**
   * Months are compared without the year: a record of December 2024 after
   * one of December 2023 on the same day neither resets nor adds anything,
   * and a record from March of the year before still counts in March.
   */
  lemma YearIgnoredExamples(balance: int, dayLimit: int)
    ensures Consume(Account(balance, Date(2023, 12, 5, 0)), dayLimit, Record(Date(2024, 12, 5, 0), "gift", 10, 1))
         == Account(balance - 10, Date(2024, 12, 5, 0))
    ensures Consume(Account(balance, Date(2024, 3, 10, 0)), dayLimit, Record(Date(2023, 3, 20, 0), "tea", 3, 2))
         == Account(balance - 3, Date(2024, 3, 10, 0))
  {
  }

  /** Consuming records in order. */
  function ConsumeAll(acc: Account, dayLimit: int, records: seq<Record>): Account
  {
    if records == [] then acc
    else Consume(ConsumeAll(acc, dayLimit, records[..|records| - 1]), dayLimit, records[|records| - 1])
  }

  /** The latest date after a run of records is the latest of the start and all record dates. */
  lemma {:induction false} ConsumeAllKeepsLatest(acc: Account, dayLimit: int, records: seq<Record>)
    ensures var final := ConsumeAll(acc, dayLimit, records).last;
      && !Before(final, acc.last)
      && (forall k :: 0 <= k < |records| ==> !Before(final, records[k].date))
      && (final == acc.last || exists k :: 0 <= k < |records| && final == records[k].date)
  {
    if records != [] {
      var init := records[..|records| - 1];
      ConsumeAllKeepsLatest(acc, dayLimit, init);
      var mid := ConsumeAll(acc, dayLimit, init);
      var final := ConsumeAll(acc, dayLimit, records).last;
      BeforeIsStrictTotalOrder(final, mid.last, acc.last);
      forall k | 0 <= k < |records|
        ensures !Before(final, records[k].date)
      {
        if k < |init| {
          assert records[k] == init[k];
          BeforeIsStrictTotalOrder(final, mid.last, records[k].date);
        }
      }
      if final != acc.last && final == mid.last {
        var j :| 0 <= j < |init| && mid.last == init[j].date;
        assert final == records[j].date;
      }
    }
  }

  /** The sum of the amounts of some records. */
  function TotalAmount(records: seq<Record>): (total: nat)
  {
    if records == [] then 0 else TotalAmount(records[..|records| - 1]) + records[|records| - 1].amount
  }

  /**
   * Within one month of one year the balance telescopes: the start balance,
   * plus the allowance for every day the latest date moved on, minus all
   * the amounts.
   */
  lemma {:induction false} SameMonthTelescopes(acc: Account, dayLimit: int, records: seq<Record>)
    requires forall k :: 0 <= k < |records| ==> records[k].date.year == acc.last.year && records[k].date.month == acc.last.month
    ensures var final := ConsumeAll(acc, dayLimit, records);
      && final.last.year == acc.last.year && final.last.month == acc.last.month
      && final.balance == acc.balance + dayLimit * (final.last.day - acc.last.day) - TotalAmount(records)
  {
    if records != [] {
      var init := records[..|records| - 1];
      SameMonthTelescopes(acc, dayLimit, init);
      var mid := ConsumeAll(acc, dayLimit, init);
      var r := records[|records| - 1];
      var final := Consume(mid, dayLimit, r);
      if Before(mid.last, r.date) && mid.last.day != r.date.day {
        assert final.balance == mid.balance + dayLimit * (r.date.day - mid.last.day) - r.amount;
        assert dayLimit * (final.last.day - acc.last.day)
            == dayLimit * (mid.last.day - acc.last.day) + dayLimit * (r.date.day - mid.last.day);
      } else {
        assert final.last.day == mid.last.day;
        assert final.balance == mid.balance - r.amount;
      }
    }
  }

  // ---------------------------------------------------------------------
  // Record numbering
  // ---------------------------------------------------------------------

  /** The records of a message numbered on from the chat's highest record number. */
  function Numbered(records: seq<Record>, maxId: int): (numbered: seq<Record>)
    ensures |numbered| == |records|
  {
    seq(|records|, k requires 0 <= k < |records| => records[k].(id := maxId + 1 + k))
  }

  /**
   * Numbering changes only the numbers, which run consecutively from one
   * past the highest number so far: numbers are never reused.
   */
  lemma NumberedIsConsecutive(records: seq<Record>, maxId: int)
    ensures var numbered := Numbered(records, maxId);
      && (forall k :: 0 <= k < |records| ==> numbered[k].(id := records[k].id) == records[k])
      && (forall k :: 0 <= k < |records| ==> maxId < numbered[k].id <= maxId + |records|)
      && (forall j, k :: 0 <= j < k < |records| ==> numbered[j].id < numbered[k].id)
  {
  }

  /** Two messages in a row never share a number: the first's numbers stay at or below the bound the second's exceed. */
  lemma SuccessiveMessagesDisjoint(a: seq<Record>, b: seq<Record>, maxId: int, nextMaxId: int)
    requires nextMaxId == maxId + |a|
    ensures forall j :: 0 <= j < |a| ==> Numbered(a, maxId)[j].id <= nextMaxId
    ensures forall k :: 0 <= k < |b| ==> nextMaxId < Numbered(b, nextMaxId)[k].id
  {
  }

  // ---------------------------------------------------------------------
  // The chat profile
  // ---------------------------------------------------------------------

  const BalancePrefix := "Your current balance: "
  const ChatTopicMismatch := "Wrong topic ID"
  const NoRecordsError := "No records found"

  /** How the handler ends: rejected with one of its two errors, or the records stored and the reply text. */
  datatype HandleOutcome = Rejected(error: string) | Stored(records: seq<Record>, reply: string)

  /** A chat's settings and running balance. */
  class ChatProfile {
    /** The thread the bot listens to; 0 listens everywhere. */
    var topicId: int
    var dayLimit: int
    var currentBalance: int
    var lastRecordTime: Date
    /** The highest record number given out in this chat. */
    var maxRecordId: int

    /** The profile GetChat creates for an unknown chat: every field at its zero value. */
    constructor ()
      ensures topicId == 0 && dayLimit == 0 && currentBalance == 0
      ensures lastRecordTime == ZeroTime && maxRecordId == 0
    {
      topicId := 0;
      dayLimit := 0;
      currentBalance := 0;
      lastRecordTime := ZeroTime;
      maxRecordId := 0;
    }

    /** `ConsumeRecord`: the balance step, changing only the balance and the latest date. */
    method ConsumeRecord(r: Record)
      modifies this
      ensures Account(currentBalance, lastRecordTime) == Consume(Account(old(currentBalance), old(lastRecordTime)), dayLimit, r)
      ensures topicId == old(topicId) && dayLimit == old(dayLimit) && maxRecordId == old(maxRecordId)
    {
      if Before(lastRecordTime, r.date) {
        if lastRecordTime.month != r.date.month {
          currentBalance := 0;
        } else if lastRecordTime.day != r.date.day {
          var daysPassed := r.date.day - lastRecordTime.day;
          currentBalance := currentBalance + dayLimit * daysPassed;
        }
        lastRecordTime := r.date;
      }
      if lastRecordTime.month == r.date.month {
        currentBalance := currentBalance - r.amount;
      }
    }

    /** `Describe`: the reply text, which reads back as the balance. */
    function Describe(): (s: string)
      reads this
      ensures |s| > |BalancePrefix| && s[..|BalancePrefix|] == BalancePrefix
      ensures ParseSignedDecimal(s[|BalancePrefix|..]) == Some(currentBalance)
    {
      IntToDecimalParses(currentBalance);
      assert (BalancePrefix + IntToDecimal(currentBalance))[|BalancePrefix|..] == IntToDecimal(currentBalance);
      BalancePrefix + IntToDecimal(currentBalance)
    }

    /**
     * The message handler's transaction: reject a message from another
     * thread, reject a message without records, otherwise number the
     * records, consume them in order and reply with the balance. A rejected
     * message leaves the profile as it was.
     */
    method HandleMessage(threadId: int, text: string, now: Date) returns (outcome: HandleOutcome)
      modifies this
      ensures old(topicId) != 0 && threadId != old(topicId) ==>
        outcome == Rejected(ChatTopicMismatch) && unchanged(this)
      ensures (old(topicId) == 0 || threadId == old(topicId)) && Parse(text, now) == [] ==>
        outcome == Rejected(NoRecordsError) && unchanged(this)
      ensures (old(topicId) == 0 || threadId == old(topicId)) && Parse(text, now) != [] ==>
        && outcome == Stored(Numbered(Parse(text, now), old(maxRecordId)), Describe())
        && maxRecordId == old(maxRecordId) + |Parse(text, now)|
        && Account(currentBalance, lastRecordTime)
           == ConsumeAll(Account(old(currentBalance), old(lastRecordTime)), dayLimit, outcome.records)
        && topicId == old(topicId) && dayLimit == old(dayLimit)
    {
      if topicId != 0 && threadId != topicId {
        return Rejected(ChatTopicMismatch);
      }
      var records := ParseMessage(text, now);
      if |records| == 0 {
        return Rejected(NoRecordsError);
      }
      records := AssignIds(records);
      ConsumeRecords(records);
      outcome := Stored(records, Describe());
    }

    /** The numbering loop: record k gets MaxRecordID + k + 1, and MaxRecordID moves past them. */
    method AssignIds(parsed: seq<Record>) returns (records: seq<Record>)
      modifies this
      ensures records == Numbered(parsed, old(maxRecordId))
      ensures maxRecordId == old(maxRecordId) + |parsed|
      ensures topicId == old(topicId) && dayLimit == old(dayLimit)
      ensures currentBalance == old(currentBalance) && lastRecordTime == old(lastRecordTime)
    {
      records := parsed;
      for idx := 0 to |records|
        invariant |records| == |parsed|
        invariant records[..idx] == Numbered(parsed, old(maxRecordId))[..idx]
        invariant records[idx..] == parsed[idx..]
        invariant maxRecordId == old(maxRecordId) + idx
        invariant topicId == old(topicId) && dayLimit == old(dayLimit)
        invariant currentBalance == old(currentBalance) && lastRecordTime == old(lastRecordTime)
      {
        assert records[idx] == parsed[idx] by { assert records[idx..][0] == parsed[idx..][0]; }
        ghost var prev := records;
        records := records[idx := records[idx].(id := maxRecordId + 1)];
        maxRecordId := maxRecordId + 1;
        assert records[idx + 1..] == prev[idx + 1..];
        assert prev[idx + 1..] == prev[idx..][1..];
        assert parsed[idx + 1..] == parsed[idx..][1..];
      }
    }

    /** The consuming loop: the records consumed in order. */
    method ConsumeRecords(records: seq<Record>)
      modifies this
      ensures Account(currentBalance, lastRecordTime)
           == ConsumeAll(Account(old(currentBalance), old(lastRecordTime)), dayLimit, records)
      ensures topicId == old(topicId) && dayLimit == old(dayLimit) && maxRecordId == old(maxRecordId)
    {
      for i := 0 to |records|
        invariant Account(currentBalance, lastRecordTime)
               == ConsumeAll(Account(old(currentBalance), old(lastRecordTime)), dayLimit, records[..i])
        invariant topicId == old(topicId) && dayLimit == old(dayLimit) && maxRecordId == old(maxRecordId)
      {
        assert records[..i + 1][..i] == records[..i];
        ConsumeRecord(records[i]);
      }
      assert records[..|records|] == records;
    }
  }
}
