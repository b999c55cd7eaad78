/** The host's bookkeeping of the moves its players send in a networked
    game: one list of program cards per player number, and the connected
    client threads, known here by the player number each serves. */
module Server {
  import opened Wrappers
  import opened Cards
  import opened Converter

  /** The player numbers of a sequence of played moves. */
  ghost function Movers(played: seq<(int, ProgramCard)>): set<int>
    decreases |played|
  {
    if |played| == 0 then {} else Movers(played[..|played| - 1]) + {played[|played| - 1].0}
  }

  /** Each move's player is a mover. */
  lemma {:induction false} MoverIn(played: seq<(int, ProgramCard)>, i: int)
    requires 0 <= i < |played|
    ensures played[i].0 in Movers(played)
    decreases |played|
  {
    if i < |played| - 1 {
      MoverIn(played[..|played| - 1], i);
    }
  }

  /** One more move adds its player to the movers. */
  lemma {:induction false} MoversSnoc(played: seq<(int, ProgramCard)>, m: (int, ProgramCard))
    ensures Movers(played + [m]) == Movers(played) + {m.0}
  {
    assert (played + [m])[..|played|] == played;
  }

  /** There are no more movers than moves. */
  lemma {:induction false} MoversAtMost(played: seq<(int, ProgramCard)>)
    ensures |Movers(played)| <= |played|
    decreases |played|
  {
    if |played| > 0 {
      MoversAtMost(played[..|played| - 1]);
    }
  }

  /** As many movers as moves: no player moved twice. */
  lemma {:induction false} OncePerPlayer(played: seq<(int, ProgramCard)>)
    requires |Movers(played)| == |played|
    ensures forall i, j :: 0 <= i < j < |played| ==> played[i].0 != played[j].0
    decreases |played|
  {
    if |played| > 0 {
      var front := played[..|played| - 1];
      MoversAtMost(front);
      OncePerPlayer(front);
      forall i | 0 <= i < |front|
        ensures played[i].0 != played[|played| - 1].0
      {
        MoverIn(front, i);
      }
    }
  }

  /** The index of the last occurrence of `n` in `s`, or -1. */
  function LastIndex(s: seq<int>, n: int): (i: int)
    ensures -1 <= i < |s|
    ensures i >= 0 ==> s[i] == n
    ensures forall j :: i < j < |s| ==> s[j] != n
    decreases |s|
  {
    if |s| == 0 then -1
    else if s[|s| - 1] == n then |s| - 1
    else LastIndex(s[..|s| - 1], n)
  }

  /** `s` without the last occurrence of `n`, or `s` itself. */
  function RemoveLast(s: seq<int>, n: int): seq<int> {
    var i := LastIndex(s, n);
    if i < 0 then s else s[..i] + s[i + 1..]
  }

  /** Removing the last occurrence of `n` takes exactly one `n` away when
      there is one and changes nothing otherwise. */
  lemma RemoveLastCount(s: seq<int>, n: int)
    ensures n in s ==> multiset(RemoveLast(s, n)) == multiset(s) - multiset{n}
    ensures n !in s ==> RemoveLast(s, n) == s
  {
    var i := LastIndex(s, n);
    if i >= 0 {
      assert s == s[..i] + [s[i]] + s[i + 1..];
    }
  }

  class GameServer {
    /** The connected client threads, by player number; the host is player 1
        and has no thread. */
    var clients: seq<int>
    /** The cards received this turn, by player number. */
    var moves: map<int, seq<ProgramCard>>

    /** Every registered list holds a card: a list is created with its first
        card and only ever grows until the turn's moves are played. */
    ghost predicate Valid()
      reads this
    {
      forall n :: n in moves ==> |moves[n]| > 0
    }

    constructor()
      ensures clients == [] && moves == map[]
      ensures Valid()
    {
      clients := [];
      moves := map[];
    }

    /** `putMove`: the card goes at the end of the player's list, which is
        created if the player has none; no other list changes. */
    method PutMove(playerNumber: int, card: ProgramCard)
      requires Valid()
      modifies this
      ensures Valid()
      ensures clients == old(clients)
      ensures playerNumber in moves
      ensures moves[playerNumber] == old(if playerNumber in moves then moves[playerNumber] else []) + [card]
      ensures forall n :: n != playerNumber ==> (n in moves <==> n in old(moves))
      ensures forall n :: n != playerNumber && n in moves ==> moves[n] == old(moves[n])
    {
      if playerNumber in moves {
        moves := moves[playerNumber := moves[playerNumber] + [card]];
      } else {
        moves := moves[playerNumber := [card]];
      }
    }

    /** `getNumberOfPlayers`: the clients and the host. */
    function NumberOfPlayers(): (n: int)
      reads this
      ensures n >= 1 && n - 1 == |clients|
    {
      |clients| + 1
    }

    /** `gotAllMoves`: as many players have a list as there are players. */
    predicate GotAllMoves()
      reads this
    {
      |moves| == NumberOfPlayers()
    }

    /** `doAllMoves`: every player's first card is played and sent, and the
        map is emptied, dropping the cards behind the first. The sent strings
        and the played moves are returned, since the sockets and the game
        are not part of this model. */
    method DoAllMoves() returns (sent: seq<string>, played: seq<(int, ProgramCard)>)
      requires Valid()
      modifies this
      ensures moves == map[] && Valid()
      ensures clients == old(clients)
      ensures |played| == |old(moves)| && Movers(played) == old(moves).Keys
      ensures forall i, j :: 0 <= i < j < |played| ==> played[i].0 != played[j].0
      ensures forall i :: 0 <= i < |played| ==> played[i].0 in old(moves) && |old(moves)[played[i].0]| > 0 && played[i].1 == old(moves)[played[i].0][0]
      ensures old(GotAllMoves()) ==> |played| == NumberOfPlayers()
      ensures sent == Announcements(played)
    {
      sent, played := PlayFirstCards(moves);
      OncePerPlayer(played);
      moves := map[];
    }

    /** `remove`: the last client thread serving the player leaves the list;
        with none, the list is unchanged. */
    method Remove(playerNumber: int)
      modifies this
      ensures moves == old(moves)
      ensures clients == RemoveLast(old(clients), playerNumber)
    {
      var found := -1;
      var i := 0;
      while i < |clients|
        invariant 0 <= i <= |clients|
        invariant found == LastIndex(clients[..i], playerNumber)
      {
        assert clients[..i + 1][..i] == clients[..i];
        if clients[i] == playerNumber {
          found := i;
        }
        i := i + 1;
      }
      assert clients[..i] == clients;
      if found >= 0 {
        clients := clients[..found] + clients[found + 1..];
      }
    }
  }

  /** The messages announcing the played moves, one per move. */
  function Announcements(played: seq<(int, ProgramCard)>): (sent: seq<string>)
    ensures |sent| == |played|
    ensures forall i :: 0 <= i < |sent| ==> sent[i] == ConvertToStringFor(played[i].0, Some(played[i].1))
  {
    seq(|played|, i requires 0 <= i < |played| => ConvertToStringFor(played[i].0, Some(played[i].1)))
  }

  /** A set with a size has a member. */
  lemma {:induction false} HasMember(s: set<int>)
    requires |s| > 0
    ensures exists x :: x in s
  {
    if forall x :: x !in s {
      assert false;
    }
  }

  /** One more move adds its announcement. */
  lemma {:induction false} AnnounceSnoc(played: seq<(int, ProgramCard)>, m: (int, ProgramCard))
    ensures Announcements(played + [m]) == Announcements(played) + [ConvertToStringFor(m.0, Some(m.1))]
  {
    var a, b := Announcements(played + [m]), Announcements(played) + [ConvertToStringFor(m.0, Some(m.1))];
    assert |a| == |b|;
    forall i | 0 <= i < |a|
      ensures a[i] == b[i]
    {
      if i < |played| {
        assert (played + [m])[i] == played[i];
      }
    }
  }

  /** Part way through `doAllMoves`: the players still `pending` are those
      of the map that have not moved, each mover moved once, with its
      first card. */
  ghost predicate Progress(ms: map<int, seq<ProgramCard>>, pending: set<int>, played: seq<(int, ProgramCard)>) {
    && pending <= ms.Keys
    && Movers(played) == ms.Keys - pending
    && |Movers(played)| == |played|
    && forall i :: 0 <= i < |played| ==> played[i].0 in ms && |ms[played[i].0]| > 0 && played[i].1 == ms[played[i].0][0]
  }

  /** Playing a pending player's first card makes progress. */
  lemma {:induction false} PlayStep(ms: map<int, seq<ProgramCard>>, pending: set<int>, played: seq<(int, ProgramCard)>, n: int)
    requires Progress(ms, pending, played) && n in pending && |ms[n]| > 0
    ensures Progress(ms, pending - {n}, played + [(n, ms[n][0])])
  {
    MoversSnoc(played, (n, ms[n][0]));
  }

  /** The loop of `doAllMoves`, in the map's own order: each player's first
      card, once per player, and the message announcing it. */
  method PlayFirstCards(ms: map<int, seq<ProgramCard>>) returns (sent: seq<string>, played: seq<(int, ProgramCard)>)
    requires forall n :: n in ms ==> |ms[n]| > 0
    ensures |played| == |ms| && Movers(played) == ms.Keys
    ensures forall i :: 0 <= i < |played| ==> played[i].0 in ms && |ms[played[i].0]| > 0 && played[i].1 == ms[played[i].0][0]
    ensures sent == Announcements(played)
  {
    var pending := ms.Keys;
    sent, played := [], [];
    while |pending| > 0
      invariant Progress(ms, pending, played)
      invariant sent == Announcements(played)
      decreases |pending|
    {
      HasMember(pending);
      var n :| n in pending;
      PlayStep(ms, pending, played, n);
      AnnounceSnoc(played, (n, ms[n][0]));
      played := played + [(n, ms[n][0])];
      sent := sent + [ConvertToStringFor(n, Some(ms[n][0]))];
      pending := pending - {n};
    }
  }
}
