/** The route object of router/route.go. The lock is held in every method. A channel is a
    number; `closedChans` and `nextChan` stand for the Go runtime's channels. */
module Route {
  import opened Prelude
  import opened RouteModel

  class Route {
    var Publishers: seq<Publisher>
    var IsNodeOpen: bool
    var PublishersChangeChan: Chan
    var closedChans: set<Chan>
    var nextChan: Chan
    /** Publishers asked to close, in the order of the requests. */
    var evicted: seq<Publisher>

    function View(): State
      reads this
    {
      State(Publishers, IsNodeOpen, PublishersChangeChan, closedChans, nextChan)
    }

    ghost predicate Valid()
      reads this
    {
      Inv(View())
    }

    constructor ()
      ensures Valid() && View() == Init && evicted == []
    {
      Publishers, IsNodeOpen, evicted := [], false, [];
      PublishersChangeChan, closedChans, nextChan := 0, {}, 1;
      new;
      CloseChan(0);
      OpenNodeLocked();
    }

    method MakeChan() returns (ch: Chan)
      modifies this`nextChan
      ensures ch == old(nextChan) && nextChan == ch + 1
    {
      ch := nextChan;
      nextChan := nextChan + 1;
    }

    /** close(ch) panics on a closed channel. */
    method CloseChan(ch: Chan)
      requires ch !in closedChans
      modifies this`closedChans
      ensures closedChans == old(closedChans) + {ch}
    {
      closedChans := closedChans + {ch};
    }

    method OpenNodeLocked()
      requires !IsNodeOpen
      modifies this`IsNodeOpen, this`PublishersChangeChan, this`nextChan
      ensures View() == Open(old(View()))
    {
      IsNodeOpen := true;
      PublishersChangeChan := MakeChan();
    }

    method CloseNodeLocked() returns (err: Option<Error>)
      requires Valid()
      modifies this`IsNodeOpen, this`closedChans
      ensures Valid() && View() == Close(old(View()))
      ensures err == if old(IsNodeOpen) then None else Some(AlreadyClosed)
      ensures !IsNodeOpen && Publishers == old(Publishers) && PublishersChangeChan in closedChans
    {
      ApplyKeepsInv(View(), DoClose);
      if !IsNodeOpen {
        return Some(AlreadyClosed);
      }
      IsNodeOpen := false;
      CloseChan(PublishersChangeChan);
      return None;
    }

    method ResetNodeLocked()
      requires Valid()
      modifies this`IsNodeOpen, this`closedChans, this`PublishersChangeChan, this`nextChan
      ensures Valid() && View() == Reset(old(View())) && IsNodeOpen
      ensures Publishers == old(Publishers) && PublishersChangeChan !in closedChans
      ensures old(PublishersChangeChan) in closedChans && PublishersChangeChan != old(PublishersChangeChan)
    {
      ApplyKeepsInv(View(), DoReset);
      var err := CloseNodeLocked();
      OpenNodeLocked();
    }

    method AnnounceChange()
      requires IsNodeOpen && PublishersChangeChan !in closedChans
      modifies this`PublishersChangeChan, this`closedChans, this`nextChan
      ensures View() == Announced(old(View()), Publishers)
    {
      var ch := PublishersChangeChan;
      PublishersChangeChan := MakeChan();
      CloseChan(ch);
    }

    method AddPublisherLocked(publisher: Publisher) returns (err: Option<Error>)
      requires Valid()
      modifies this
      ensures Valid() && View() == Add(old(View()), publisher)
      ensures err == AddError(old(View()), publisher)
      ensures evicted == old(evicted) + (if err.None? then Conflicting(publisher.mode, old(Publishers)) else [])
      // by the object's fields: everybody is still there, or is asked to close, or is the new one
      ensures old(evicted) <= evicted
      ensures err.None? ==>
        && multiset(old(Publishers)) + multiset{publisher} == multiset(Publishers) + multiset(evicted[|old(evicted)|..])
        && Publishers != [] && Publishers[|Publishers| - 1] == publisher
      ensures err.Some? ==> View() == old(View()) && evicted == old(evicted)
      ensures err == Some(RouteClosed) <==> !old(IsNodeOpen)
      ensures err == Some(AlreadyAPublisher) <==> old(IsNodeOpen) && publisher in old(Publishers)
      ensures err == Some(UnknownMode) <==>
        && old(IsNodeOpen) && publisher !in old(Publishers) && old(Publishers) != []
        && (publisher.mode == Undefined || publisher.mode == EndOfModes)
      ensures err == Some(AlreadyHasPublisher) <==>
        && old(IsNodeOpen) && publisher !in old(Publishers) && old(Publishers) != []
        && (publisher.mode == ExclusiveFail
            || (publisher.mode == SharedFail && exists q :: q in old(Publishers) && !Shares(q.mode)))
    {
      ghost var s, gone := View(), evicted;
      AddErrorMeans(s, publisher);
      AddKeepsEverybody(s, publisher);
      hide Add, AddError, Conflicting, Inv, Shares;
      err := Arbitrate(publisher);
      assert err.None? ==> evicted[|gone|..] == Conflicting(publisher.mode, s.publishers);
    }

    /** The body of AddPublisherLocked. */
    method Arbitrate(publisher: Publisher) returns (err: Option<Error>)
      requires Valid()
      modifies this
      ensures Valid() && View() == Add(old(View()), publisher)
      ensures err == AddError(old(View()), publisher)
      ensures evicted == old(evicted) + (if err.None? then Conflicting(publisher.mode, old(Publishers)) else [])
    {
      ghost var s := View();
      ApplyKeepsInv(s, DoAdd(publisher));
      ChannelIsOpen(s);
      hide Inv, NonExclusive, Exclusive;
      if !IsNodeOpen {
        return Some(RouteClosed);
      }
      if publisher in Publishers {
        return Some(AlreadyAPublisher);
      }
      if |Publishers| > 0 {
        var mode := publisher.mode;
        match mode
        case ExclusiveTakeover =>
          evicted, Publishers := evicted + Publishers, [];
        case ExclusiveFail =>
          return Some(AlreadyHasPublisher);
        case SharedTakeover | SharedFail =>
          var newPublishers, publishersToRemove, conflict := SortOut(mode);
          if conflict {
            return Some(AlreadyHasPublisher);
          }
          evicted := evicted + publishersToRemove;
          Publishers := newPublishers;
        case Undefined | EndOfModes =>
          return Some(UnknownMode);
      }
      Publishers := Publishers + [publisher];
      if IsNodeOpen {
        AnnounceChange();
      }
      return None;
    }

    /** Lines 270-282: who stays beside a shared publisher, and who does not. */
    method SortOut(mode: PublishMode) returns (stay: seq<Publisher>, go: seq<Publisher>, conflict: bool)
      requires mode.SharedTakeover? || mode.SharedFail?
      ensures conflict <==> mode.FailOnConflict() && Exclusive(Publishers) != []
      ensures !conflict ==> stay == NonExclusive(Publishers) && go == Exclusive(Publishers)
    {
      stay, go, conflict := [], [], false;
      hide NonExclusive, Exclusive;
      assert Publishers[0..] == Publishers;
      for i := 0 to |Publishers|
        invariant stay + NonExclusive(Publishers[i..]) == NonExclusive(Publishers)
        invariant go + Exclusive(Publishers[i..]) == Exclusive(Publishers)
        invariant mode.FailOnConflict() ==> go == []
      {
        Split(Publishers, i);
        if !Publishers[i].mode.IsExclusive() {
          stay := stay + [Publishers[i]];
          continue;
        }
        if mode.FailOnConflict() {
          return stay, go, true;
        }
        go := go + [Publishers[i]];
      }
      NobodyLeft(Publishers[|Publishers|..]);
    }

    method RemovePublisherLocked(publisher: Publisher) returns (err: Option<Error>)
      requires Valid()
      modifies this`Publishers, this`PublishersChangeChan, this`closedChans, this`nextChan
      ensures Valid() && View() == Remove(old(View()), publisher)
      ensures err == if publisher in old(Publishers) then None else Some(NotFound)
      // the others stay, in order
      ensures err.None? ==> exists i ::
        0 <= i < |old(Publishers)| && old(Publishers)[i] == publisher && Publishers == old(Publishers)[..i] + old(Publishers)[i + 1..]
      ensures err.Some? ==> View() == old(View())
      ensures IsNodeOpen == old(IsNodeOpen) && (err.None? && IsNodeOpen <==> PublishersChangeChan != old(PublishersChangeChan))
    {
      ApplyKeepsInv(View(), DoRemove(publisher));
      ChannelIsOpen(View());
      hide Inv, Remove;
      for idx := 0 to |Publishers|
        invariant View() == old(View()) && publisher !in Publishers[..idx]
      {
        if publisher == Publishers[idx] {
          RemovedAt(View(), publisher, idx);
          Publishers := Publishers[..idx] + Publishers[idx + 1..];
          if IsNodeOpen {
            AnnounceChange();
          }
          return None;
        }
      }
      NotThere(View(), publisher);
      return Some(NotFound);
    }
  }

  lemma Split(ps: seq<Publisher>, i: nat)
    requires i < |ps|
    ensures NonExclusive(ps[i..]) == (if ps[i].mode.IsExclusive() then [] else [ps[i]]) + NonExclusive(ps[i + 1..])
    ensures Exclusive(ps[i..]) == (if ps[i].mode.IsExclusive() then [ps[i]] else []) + Exclusive(ps[i + 1..])
  {
    assert ps[i..][1..] == ps[i + 1..];
  }

  lemma NobodyLeft(ps: seq<Publisher>)
    requires ps == []
    ensures NonExclusive(ps) == [] && Exclusive(ps) == []
  {
  }

  lemma RemovedAt(s: State, p: Publisher, i: nat)
    requires i < |s.publishers| && s.publishers[i] == p && p !in s.publishers[..i]
    ensures Remove(s, p) ==
      var rest := s.publishers[..i] + s.publishers[i + 1..];
      if s.open then Announced(s, rest) else s.(publishers := rest)
  {
    IndexIs(s.publishers, p, i);
  }

  lemma NotThere(s: State, p: Publisher)
    requires p !in s.publishers
    ensures Remove(s, p) == s
  {
  }

  lemma ChannelIsOpen(s: State)
    requires Inv(s)
    ensures s.chan < s.next && (s.open ==> s.chan !in s.closed)
  {
  }

  lemma {:induction false} IndexIs(ps: seq<Publisher>, p: Publisher, i: nat)
    requires i < |ps| && ps[i] == p && p !in ps[..i]
    ensures IndexOf(ps, p) == i
  {
    if i > 0 {
      assert ps[..i][0] == ps[0] && ps[..i][1..] == ps[1..][..i - 1];
      IndexIs(ps[1..], p, i - 1);
    }
  }
}
