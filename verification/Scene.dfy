/**
 The scene that the session switcher drives: sessions stacked from bottom to
 top, some of them visible.  It follows the scene fake of the switcher's unit
 tests, whose list of (session, visible) pairs is kept here as an order and a
 set.
 */
module Scenes {
  /** A client session: an object identity and the constant name it answers to. */
  datatype Session = Session(id: nat, name: string)

  datatype Scene = Scene(order: seq<Session>, shown: set<Session>) {

    function Show(session: Session): Scene {
      this.(shown := shown + {session})
    }

    function Hide(sessions: set<Session>): Scene {
      this.(shown := shown - sessions)
    }

    function Raise(session: Session): Scene {
      this.(order := Without(order, session) + [session])
    }

    /** What a viewer sees of the given sessions, bottom to top. */
    function Displayed(sessions: set<Session>): seq<Session> {
      Only(order, shown * sessions)
    }
  }

  ghost predicate NoDuplicates(order: seq<Session>) {
    forall i, j :: 0 <= i < j < |order| ==> order[i] != order[j]
  }

  function Without(order: seq<Session>, session: Session): seq<Session> {
    if order == [] then []
    else
      var n := |order| - 1;
      Without(order[..n], session) + if order[n] == session then [] else [order[n]]
  }

  /** The elements of `order` that belong to `keep`, in the same order. */
  function Only(order: seq<Session>, keep: set<Session>): seq<Session> {
    if order == [] then []
    else
      var n := |order| - 1;
      Only(order[..n], keep) + if order[n] in keep then [order[n]] else []
  }

  lemma {:induction false} WithoutMembers(order: seq<Session>, session: Session)
    ensures forall s :: s in Without(order, session) <==> s in order && s != session
    ensures NoDuplicates(order) ==> NoDuplicates(Without(order, session))
  {
    if order != [] {
      var n := |order| - 1;
      WithoutMembers(order[..n], session);
      assert order == order[..n] + [order[n]];
      if NoDuplicates(order) {
        assert order[n] !in order[..n];
      }
    }
  }

  lemma {:induction false} OnlyMembers(order: seq<Session>, keep: set<Session>)
    ensures forall s :: s in Only(order, keep) <==> s in order && s in keep
  {
    if order != [] {
      var n := |order| - 1;
      OnlyMembers(order[..n], keep);
      assert order == order[..n] + [order[n]];
    }
  }

  lemma {:induction false} OnlyWithout(order: seq<Session>, session: Session, keep: set<Session>)
    ensures Only(Without(order, session), keep) == Only(order, keep - {session})
  {
    if order != [] {
      var n := |order| - 1;
      OnlyWithout(order[..n], session, keep);
      var rest := Without(order[..n], session);
      if order[n] == session {
        assert Without(order, session) == rest;
      } else {
        assert Without(order, session)[..|rest|] == rest;
      }
    }
  }

  lemma {:induction false} OnlyNothing(order: seq<Session>)
    ensures Only(order, {}) == []
  {
    if order != [] {
      OnlyNothing(order[..|order| - 1]);
    }
  }

  lemma {:induction false} OnlyOne(order: seq<Session>, session: Session)
    requires NoDuplicates(order) && session in order
    ensures Only(order, {session}) == [session]
  {
    var n := |order| - 1;
    if order[n] == session {
      OnlyAbsent(order[..n], session);
    } else {
      OnlyOne(order[..n], session);
    }
  }

  lemma {:induction false} OnlyAbsent(order: seq<Session>, session: Session)
    requires session !in order
    ensures Only(order, {session}) == []
  {
    if order != [] {
      OnlyAbsent(order[..|order| - 1], session);
    }
  }

  /** Raising a visible session puts it on top and moves nothing else. */
  lemma RaisedOnTop(order: seq<Session>, session: Session, keep: set<Session>)
    requires session in keep
    ensures Only(Without(order, session) + [session], keep) == Only(order, keep - {session}) + [session]
  {
    var rest := Without(order, session);
    assert (rest + [session])[..|rest|] == rest;
    OnlyWithout(order, session, keep);
  }

  lemma {:induction false} WithoutAbsent(order: seq<Session>, session: Session)
    requires session !in order
    ensures Without(order, session) == order
  {
    if order != [] {
      WithoutAbsent(order[..|order| - 1], session);
    }
  }

  /** Raising a session twice is raising it once. */
  lemma RaisedAgain(order: seq<Session>, session: Session)
    ensures var raised := Without(order, session) + [session]; Without(raised, session) + [session] == raised
  {
    var rest := Without(order, session);
    WithoutMembers(order, session);
    WithoutAbsent(rest, session);
    assert (rest + [session])[..|rest|] == rest;
  }
}
