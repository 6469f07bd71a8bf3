/** Append-only history of a hosted log (did-hosting-common/src/did_ops.rs:851-902). */
module LogHistory {
  import opened Common
  import opened LogText

  datatype Verdict = Accepted | RollbackOrFork | Resurrection

  /** Whether an entry, read as JSON, sets `parameters.deactivated`. */
  type Reader = string -> bool

  predicate Deactivated(deactivates: Reader, lines: seq<string>) {
    exists i :: 0 <= i < |lines| && deactivates(lines[i])
  }

  function VerifyLogExtends(deactivates: Reader, previous: Option<string>, next: string): Verdict {
    match previous
    case None => Accepted
    case Some(log) =>
      var old_, new_ := EntryLines(log), EntryLines(next);
      if |new_| < |old_| || new_[..|old_|] != old_ then RollbackOrFork
      else if Deactivated(deactivates, old_) && |new_| != |old_| then Resurrection
      else Accepted
  }

  function AfterOffer(deactivates: Reader, held: Option<string>, offer: string): Option<string> {
    if VerifyLogExtends(deactivates, held, offer) == Accepted then Some(offer) else held
  }

  /** What a host holds after a run of syncs, accepted or refused. */
  function Hosted(deactivates: Reader, held: Option<string>, offers: seq<string>): Option<string>
    decreases offers
  {
    if offers == [] then held
    else Hosted(deactivates, AfterOffer(deactivates, held, offers[0]), offers[1..])
  }

  /** History order over any run: whatever was held stays an entry prefix of whatever is
      held later, and once a held log deactivates the DID its entries never change. */
  lemma {:induction false} HistoryOnlyGrows(deactivates: Reader, log: string, offers: seq<string>)
    ensures Hosted(deactivates, Some(log), offers).Some?
    ensures EntryLines(log) <= EntryLines(Hosted(deactivates, Some(log), offers).value)
    ensures Deactivated(deactivates, EntryLines(log)) ==>
        EntryLines(Hosted(deactivates, Some(log), offers).value) == EntryLines(log)
    decreases offers
  {
    if offers != [] {
      if VerifyLogExtends(deactivates, Some(log), offers[0]) == Accepted {
        assert EntryLines(log) <= EntryLines(offers[0]);
        if Deactivated(deactivates, EntryLines(log)) {
          assert EntryLines(offers[0]) == EntryLines(log);
        }
        HistoryOnlyGrows(deactivates, offers[0], offers[1..]);
      } else {
        HistoryOnlyGrows(deactivates, log, offers[1..]);
      }
    }
  }

  /** Splitting a run: the later part starts from what the earlier part left. */
  lemma {:induction false} HostedInTwo(deactivates: Reader, held: Option<string>, early: seq<string>, late: seq<string>)
    ensures Hosted(deactivates, held, early + late) == Hosted(deactivates, Hosted(deactivates, held, early), late)
    decreases early
  {
    if early == [] {
      assert early + late == late;
    } else {
      assert (early + late)[1..] == early[1..] + late;
      HostedInTwo(deactivates, AfterOffer(deactivates, held, early[0]), early[1..], late);
    }
  }

  /** Any two moments of any run, from an empty host. */
  lemma LaterExtendsEarlier(deactivates: Reader, early: seq<string>, late: seq<string>)
    ensures
      var before, after := Hosted(deactivates, None, early), Hosted(deactivates, None, early + late);
      before.Some? ==>
        && after.Some? && EntryLines(before.value) <= EntryLines(after.value)
        && (Deactivated(deactivates, EntryLines(before.value)) ==> EntryLines(after.value) == EntryLines(before.value))
  {
    HostedInTwo(deactivates, None, early, late);
    var before := Hosted(deactivates, None, early);
    if before.Some? {
      HistoryOnlyGrows(deactivates, before.value, late);
    }
  }

  predicate Extends(log: string, next: string, tail: seq<string>) {
    EntryLines(next) == EntryLines(log) + tail
  }

  lemma TailOf<T>(a: seq<T>, b: seq<T>, tail: seq<T>)
    requires b == a + tail
    ensures |b| >= |a| && b[..|a|] == a && (tail == [] <==> |b| == |a|)
  {
  }

  lemma AppendAccepted(deactivates: Reader, log: string, next: string, tail: seq<string>)
    requires Extends(log, next, tail)
    ensures VerifyLogExtends(deactivates, Some(log), next) == Accepted
       <==> tail == [] || !Deactivated(deactivates, EntryLines(log))
  {
    TailOf(EntryLines(log), EntryLines(next), tail);
  }

  /** Exactly the appends to a live log, and re-sends of the same entries, are accepted:
      every other offer is refused. */
  lemma AcceptsExactlyExtensions(deactivates: Reader, log: string, next: string)
    ensures VerifyLogExtends(deactivates, Some(log), next) == Accepted
       <==> exists tail :: Extends(log, next, tail) && (tail == [] || !Deactivated(deactivates, EntryLines(log)))
  {
    forall tail | Extends(log, next, tail)
      ensures VerifyLogExtends(deactivates, Some(log), next) == Accepted
         <==> tail == [] || !Deactivated(deactivates, EntryLines(log))
    {
      AppendAccepted(deactivates, log, next, tail);
    }
    if VerifyLogExtends(deactivates, Some(log), next) == Accepted {
      var tail := EntryLines(next)[|EntryLines(log)|..];
      assert EntryLines(next) == EntryLines(next)[..|EntryLines(log)|] + tail;
      assert Extends(log, next, tail);
    }
  }

  /** And the refusal says which of the two it is: entries rewritten or dropped, or entries
      added to a deactivated log. */
  lemma RefusalNamesTheCause(deactivates: Reader, log: string, next: string)
    ensures VerifyLogExtends(deactivates, Some(log), next) == RollbackOrFork <==> !(EntryLines(log) <= EntryLines(next))
    ensures VerifyLogExtends(deactivates, Some(log), next) == Resurrection
       <==> EntryLines(log) < EntryLines(next) && Deactivated(deactivates, EntryLines(log))
  {
  }

  /** Once an entry that is held deactivates the DID, nothing but the same entries is accepted. */
  lemma DeactivationIsFinal(deactivates: Reader, log: string, next: string, i: nat)
    requires i < |EntryLines(log)| && deactivates(EntryLines(log)[i])
    ensures VerifyLogExtends(deactivates, Some(log), next) == Accepted <==> EntryLines(next) == EntryLines(log)
  {
  }

  /** Until then, everything is accepted that goes on from what is held, and nothing else. */
  lemma LiveLogGoesOn(deactivates: Reader, log: string, next: string)
    requires forall i :: 0 <= i < |EntryLines(log)| ==> !deactivates(EntryLines(log)[i])
    ensures VerifyLogExtends(deactivates, Some(log), next) == Accepted <==> EntryLines(log) <= EntryLines(next)
  {
  }
}
