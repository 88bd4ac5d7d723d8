/**
 * The output analyzer of the launcher (papermc-launcher/launcher.go, the
 * worker started in Start): a single slot that holds at most one listen
 * request, taken sequentially here. The events are a request to wait for
 * a substring, an output line of the server process, and the end of the
 * output stream (or the cancellation of the process context, which ends
 * the worker the same way).
 */
module Correlation {
  import opened Wrappers
  import opened GoText

  class OutputAnalyzer {
    /** `reqPtr`: the query of the request being served, if any. */
    var active: Option<string>
    /** The worker has returned: the output stream ended or the context was cancelled. */
    var finished: bool
    /** The queries taken into the slot, in the order they were taken. */
    var accepted: seq<string>
    /** The lines sent back on the requests' `found` channels, in order. */
    var delivered: seq<string>
    /** The lines echoed to the console, in order. */
    var printed: seq<string>

    /**
     * The k-th answered request got the k-th delivered line, and that line
     * contains the k-th query; at most the last accepted request is still
     * waiting, and it is the one in the slot.
     */
    ghost predicate Valid()
      reads this
    {
      && |accepted| == |delivered| + (if active.Some? then 1 else 0)
      && (forall k :: 0 <= k < |delivered| ==> Contains(delivered[k], accepted[k]))
      && (active.Some? ==> active.value == accepted[|accepted| - 1])
    }

    /** A fresh worker: no request, nothing seen yet. */
    constructor ()
      ensures Valid()
      ensures active == None && !finished
      ensures accepted == [] && delivered == [] && printed == []
    {
      active := None;
      finished := false;
      accepted := [];
      delivered := [];
      printed := [];
    }

    /**
     * A listen request arrives. It is taken (and its `accepted` signal
     * sent) only while the slot is empty and the worker is running;
     * otherwise the sender stays blocked and nothing changes.
     */
    method Request(query: string) returns (taken: bool)
      requires Valid()
      modifies this
      ensures Valid()
      ensures taken <==> !old(finished) && old(active).None?
      ensures taken ==> active == Some(query) && accepted == old(accepted) + [query]
      ensures !taken ==> active == old(active) && accepted == old(accepted)
      ensures delivered == old(delivered) && printed == old(printed) && finished == old(finished)
    {
      if finished || active.Some? {
        return false;
      }
      active := Some(query);
      accepted := accepted + [query];
      taken := true;
    }

    /**
     * An output line arrives. It is delivered only when a request is active
     * and the line contains its query; delivery empties the slot. Every line
     * is printed, matched or not.
     */
    method Line(text: string) returns (found: bool)
      requires Valid()
      modifies this
      ensures Valid()
      ensures found <==> !old(finished) && old(active).Some? && Contains(text, old(active).value)
      ensures found ==> active == None && delivered == old(delivered) + [text]
      ensures !found ==> active == old(active) && delivered == old(delivered)
      ensures printed == if old(finished) then old(printed) else old(printed) + [text]
      ensures accepted == old(accepted) && finished == old(finished)
    {
      found := false;
      if finished {
        return;
      }
      if active.Some? && Contains(text, active.value) {
        delivered := delivered + [text];
        active := None;
        found := true;
      }
      printed := printed + [text];
    }

    /** End of the output stream or cancellation: the worker returns; a waiting request is never answered. */
    method Finish()
      requires Valid()
      modifies this
      ensures Valid()
      ensures finished
      ensures active == old(active) && accepted == old(accepted)
      ensures delivered == old(delivered) && printed == old(printed)
    {
      finished := true;
    }
  }

  /**
   * Two exchanges on a fresh analyzer: a second request waits while the
   * first is pending, and once each line answers its query, both queries
   * are answered in order and every line is printed.
   */
  method TwoExchanges(q1: string, l1: string, q2: string, l2: string)
    returns (waited: bool, accepted: seq<string>, delivered: seq<string>, printed: seq<string>)
    requires Contains(l1, q1) && Contains(l2, q2)
    ensures waited
    ensures accepted == [q1, q2] && delivered == [l1, l2] && printed == [l1, l2]
  {
    var a := new OutputAnalyzer();
    var t1 := a.Request(q1);
    var blocked := a.Request(q2);
    assert t1;
    waited := !blocked;
    var f1 := a.Line(l1);
    var t2 := a.Request(q2);
    var f2 := a.Line(l2);
    assert f1 && t2 && f2;
    accepted, delivered, printed := a.accepted, a.delivered, a.printed;
  }
}
