/** A network lobby: seats claimed, given a deck, declared ready and left, until
    every human seat is ready and the game starts. */
module NetworkLobbies {
  import opened Wrappers
  import opened Texts

  // ------------------------------------------------------------- ids in order

  /** The order of a sorted set of ids. */
  predicate Leq(a: string, b: string)
  {
    a == [] || (b != [] && (a[0] < b[0] || (a[0] == b[0] && Leq(a[1..], b[1..]))))
  }

  lemma {:induction false} LeqIsTotalOrder(a: string, b: string, c: string)
    ensures Leq(a, a) && (Leq(a, b) || Leq(b, a))
    ensures Leq(a, b) && Leq(b, c) ==> Leq(a, c)
    ensures Leq(a, b) && Leq(b, a) ==> a == b
    decreases |a| + |b| + |c|
  {
    var x := if a == [] then a else a[1..];
    var y := if b == [] then b else b[1..];
    var z := if c == [] then c else c[1..];
    if a != [] || b != [] || c != [] {
      LeqIsTotalOrder(x, y, z);
    }
    if a != [] && b != [] && a[0] == b[0] && x == y {
      assert a == [a[0]] + x && b == [b[0]] + y;
    }
  }

  predicate IsLeast(s: set<string>, m: string)
  {
    m in s && forall x | x in s :: Leq(m, x)
  }

  lemma {:induction false} LeastExists(s: set<string>)
    requires s != {}
    ensures exists m :: IsLeast(s, m)
  {
    var x :| x in s;
    var rest := s - {x};
    if rest == {} {
      LeqIsTotalOrder(x, x, x);
      assert s == {x} && IsLeast(s, x);
    } else {
      LeastExists(rest);
      var m :| IsLeast(rest, m);
      LeqIsTotalOrder(m, x, m);
      LeqIsTotalOrder(x, x, x);
      var least := if Leq(m, x) then m else x;
      forall y | y in s ensures Leq(least, y) {
        LeqIsTotalOrder(x, m, y);
      }
      assert IsLeast(s, least);
    }
  }

  function Least(s: set<string>): (m: string)
    requires s != {}
    ensures IsLeast(s, m)
  {
    LeastExists(s);
    LeastIsUnique(s);
    var m :| IsLeast(s, m);
    m
  }

  lemma LeastIsUnique(s: set<string>)
    ensures forall m, n | IsLeast(s, m) && IsLeast(s, n) :: m == n
  {
    forall m, n | IsLeast(s, m) && IsLeast(s, n) ensures m == n {
      LeqIsTotalOrder(m, n, m);
    }
  }

  // --------------------------------------------------------------------- lobby

  const RANDOM := "random"

  /** A seat of the table, human or not, and its deck. */
  datatype Entry = Entry(id: string, deck: string)

  datatype Status = Waiting | Starting | Failed

  datatype Lobby = Lobby(
    code: string, host: string, humans: seq<string>, claimed: set<string>, ready: set<string>,
    usernames: map<string, string>, lastSeen: map<string, nat>, players: seq<Entry>, status: Status,
        error: Option<string>)

  /** A seat's first entry in the table. */
  function EntryOf(players: seq<Entry>, id: string): (r: Option<nat>)
    ensures r.Some? ==> r.value < |players| && players[r.value].id == id && forall j | 0 <= j < r.value ::
            players[j].id != id
    ensures r.None? ==> forall e | e in players :: e.id != id
    decreases |players|
  {
    if players == [] then None
    else
      var before := EntryOf(players[..|players| - 1], id);
      if before.Some? then before
      else if players[|players| - 1].id == id then
        (assert forall j | 0 <= j < |players| - 1 :: players[j] in players[..|players| - 1]; Some(|players| - 1))
      else None
  }

  predicate Playable(deck: string)
  {
    deck != RANDOM && !Blank(deck)
  }

  function Seats(l: Lobby): set<string>
  {
    set id | id in l.humans
  }

  predicate NamesDistinct(usernames: map<string, string>)
  {
    forall a, b | a in usernames && b in usernames && a != b :: !SameIgnoringCase(usernames[a], usernames[b])
  }

  predicate ReadyDecks(l: Lobby)
  {
    forall id | id in l.ready ::
      var k := EntryOf(l.players, id);
      k.Some? && Playable(l.players[k.value].deck)
  }

  /** What holds of every lobby, between any two requests. */
  predicate Inv(l: Lobby)
  {
    && l.host in l.claimed && l.claimed <= Seats(l) && l.ready <= l.claimed
    && l.usernames.Keys == l.claimed && l.lastSeen.Keys == l.claimed
    && NamesDistinct(l.usernames) && ReadyDecks(l)
  }

  predicate Taken(l: Lobby, seat: string, username: string)
  {
    exists other | other in l.usernames :: other != seat && SameIgnoringCase(l.usernames[other], username)
  }

  // ------------------------------------------------------------ creating a lobby

  /** A request for a lobby; the username is None where it is not acceptable. */
  datatype Creation = Creation(host: string, username: Option<string>, humans: seq<string>, players: seq<Entry>,
                               tableSizeFits: bool)

  function Created(c: Creation, code: string, now: nat): Result<Lobby, string>
  {
    if c.username.None? then Failure("A username between 1 and 32 characters is required")
    else if !c.tableSizeFits then Failure("wrong number of players for this format")
    else if |c.humans| < 2 || |c.humans| > 4 then Failure("Network lobbies require two to four human seats")
    else if c.host !in c.humans then Failure("The host must own a human seat")
    else Success(Lobby(code, c.host, c.humans, {c.host}, {}, map[c.host := c.username.value], map[c.host := now],
                       c.players, Waiting, None))
  }

  /** A created lobby has the seats and decks asked for; only its host is there, under
      the name given, and not ready. */
  lemma CreatedIsSound(c: Creation, code: string, now: nat)
    requires Created(c, code, now).Success?
    ensures Inv(Created(c, code, now).value)
    ensures var l := Created(c, code, now).value;
            && l.code == code && l.humans == c.humans && l.players == c.players && l.status.Waiting? && l.error.None?
            && l.host == c.host && l.claimed == {c.host} && l.ready == {} && l.lastSeen == map[c.host := now]
            && c.username.Some? && l.usernames == map[c.host := c.username.value]
  {
  }

  /** What a request for a lobby must meet. */
  lemma CreatedIff(c: Creation, code: string, now: nat)
    ensures Created(c, code, now).Success? <==>
            c.username.Some? && c.tableSizeFits && 2 <= |c.humans| <= 4 && c.host in c.humans
  {
  }

  // ------------------------------------------------------------------- joining

  /** A request to join: a seat to resume, if any, with the right token or not. */
  datatype Join = Join(seat: Option<string>, tokenMatches: bool, username: Option<string>)

  /** The first human seat nobody has claimed. */
  function FreeSeat(humans: seq<string>, claimed: set<string>): (r: Option<string>)
    ensures r.Some? ==> r.value in humans && r.value !in claimed
    ensures r.None? ==> forall id | id in humans :: id in claimed
  {
    if humans == [] then None
    else
      var before := FreeSeat(humans[..|humans| - 1], claimed);
      if before.Some? then before
      else if humans[|humans| - 1] !in claimed then Some(humans[|humans| - 1])
      else None
  }

  function JoinSeat(l: Lobby, r: Join): Result<string, string>
  {
    if r.username.None? then Failure("A username between 1 and 32 characters is required")
    else
      var asked := if r.seat == Some("") then None else r.seat;
      if asked.Some? then
        if !r.tokenMatches || asked.value !in l.claimed then Failure("The requested lobby seat is unavailable")
        else if asked.value in l.usernames && !SameIgnoringCase(l.usernames[asked.value], r.username.value) then
          Failure("This seat belongs to another username")
        else if Taken(l, asked.value, r.username.value) then Failure("This username is already in the lobby")
        else Success(asked.value)
      else
        var free := FreeSeat(l.humans, l.claimed);
        if free.None? then Failure("Every human seat is already occupied")
        else if Taken(l, free.value, r.username.value) then Failure("This username is already in the lobby")
        else Success(free.value)
  }

  function Joined(l: Lobby, seat: string, username: string, now: nat): Lobby
  {
    l.(claimed := l.claimed + {seat}, lastSeen := l.lastSeen[seat := now], usernames := l.usernames[seat := username],
       ready := l.ready - {seat})
  }

  lemma JoinKeepsInv(l: Lobby, r: Join, now: nat)
    requires Inv(l) && JoinSeat(l, r).Success?
    ensures Inv(Joined(l, JoinSeat(l, r).value, r.username.value, now))
  {
    var seat := JoinSeat(l, r).value;
    var after := Joined(l, seat, r.username.value, now);
    assert seat in Seats(l);
    forall a, b | a in after.usernames && b in after.usernames && a != b
      ensures !SameIgnoringCase(after.usernames[a], after.usernames[b])
    {
      if a == seat {
        assert !SameIgnoringCase(l.usernames[b], r.username.value);
      } else if b == seat {
        assert !SameIgnoringCase(l.usernames[a], r.username.value);
      }
    }
  }

  /** A newcomer gets in exactly when a human seat is free and nobody in the
      lobby goes by that name. */
  lemma NewcomerGetsInIff(l: Lobby, r: Join)
    requires Inv(l) && (r.seat.None? || r.seat == Some(""))
    ensures JoinSeat(l, r).Success? <==>
            && r.username.Some? && l.claimed != Seats(l)
            && forall id | id in l.claimed :: !SameIgnoringCase(l.usernames[id], r.username.value)
    ensures JoinSeat(l, r).Success? ==> JoinSeat(l, r).value !in l.claimed
  {
  }

  /** A claimed seat is resumed exactly by its token and its name, whatever the
      case: in a sound lobby nobody else's name can be in the way. */
  lemma SeatIsResumedIff(l: Lobby, r: Join)
    requires Inv(l) && r.seat.Some? && r.seat.value != ""
    ensures JoinSeat(l, r).Success? <==>
            && r.username.Some? && r.tokenMatches && r.seat.value in l.claimed
            && SameIgnoringCase(l.usernames[r.seat.value], r.username.value)
    ensures JoinSeat(l, r).Success? ==> JoinSeat(l, r).value == r.seat.value
  {
  }

  // ------------------------------------------------------------------- leaving

  function WithDeck(players: seq<Entry>, id: string, deck: string): (r: seq<Entry>)
    ensures |r| == |players| && forall j | 0 <= j < |players| :: r[j].id == players[j].id
    ensures forall j | 0 <= j < |players| :: r[j] != players[j] ==> EntryOf(players, id) == Some(j)
  {
    var k := EntryOf(players, id);
    if k.Some? then players[k.value := players[k.value].(deck := deck)] else players
  }

  /** The seat goes back to a random deck; the host's office passes on. */
  function Left(l: Lobby, seat: string): Lobby
  {
    var claimed := l.claimed - {seat};
    l.(claimed := claimed, lastSeen := l.lastSeen - {seat}, ready := l.ready - {seat},
       usernames := l.usernames - {seat},
       players := WithDeck(l.players, seat, RANDOM),
       host := if claimed != {} && l.host == seat then Least(claimed) else l.host)
  }

  /** Changing one seat's deck leaves the other ready seats their decks. */
  lemma OthersKeepTheirDecks(l: Lobby, id: string, deck: string, ready: set<string>)
    requires ReadyDecks(l) && ready <= l.ready && (id in ready ==> Playable(deck))
    ensures ReadyDecks(l.(players := WithDeck(l.players, id, deck), ready := ready))
  {
  }

  lemma LeaveKeepsInv(l: Lobby, seat: string)
    requires Inv(l) && seat in l.claimed && l.claimed != {seat}
    ensures Inv(Left(l, seat))
  {
    OthersKeepTheirDecks(l, seat, RANDOM, l.ready - {seat});
    assert l.claimed == (l.claimed - {seat}) + {seat};
  }

  /** The deck of a seat that was left, and only that, is up to chance again. */
  lemma LeavingCostsTheDeck(l: Lobby, seat: string, other: string)
    ensures EntryOf(l.players, seat).Some? ==> DeckIs(Left(l, seat).players, seat, RANDOM)
    ensures other != seat ==> forall deck :: DeckIs(Left(l, seat).players, other, deck) <==>
            DeckIs(l.players, other, deck)
  {
  }

  /** The player who leaves can always join again under the old name, in the first
      free seat, which need not be the old one. In the old seat everything is as
      before but for readiness and the host's office. */
  lemma LeaveAndReturn(l: Lobby, seat: string, now: nat)
    requires Inv(l) && seat in l.claimed && l.claimed != {seat}
    ensures var away, free := Left(l, seat), FreeSeat(l.humans, l.claimed - {seat});
            && free.Some?
            && JoinSeat(away, Join(None, false, Some(l.usernames[seat]))) == Success(free.value)
            && (l.claimed == Seats(l) ==> free == Some(seat))
            && var back := Joined(away, free.value, l.usernames[seat], now);
               && back.claimed == l.claimed - {seat} + {free.value}
               && back.usernames == (l.usernames - {seat})[free.value := l.usernames[seat]]
               && back.ready == l.ready - {seat}
               && back.host == (if l.host == seat then Least(l.claimed - {seat}) else l.host)
               && (free == Some(seat) ==> back.claimed == l.claimed && back.usernames == l.usernames)
  {
    var away, r := Left(l, seat), Join(None, false, Some(l.usernames[seat]));
    LeaveKeepsInv(l, seat);
    assert seat in Seats(l);
    NewcomerGetsInIff(away, r);
    var free := FreeSeat(l.humans, l.claimed - {seat});
    assert free.Some? && free.value in Seats(l);
    var back := Joined(away, free.value, l.usernames[seat], now);
    if free == Some(seat) {
      assert back.claimed == l.claimed;
      assert back.usernames == l.usernames;
    }
  }

  // ---------------------------------------------------------- updating and starting

  /** `network_lobby_can_start`, given the deck sessions that exist. */
  predicate CanStart(l: Lobby, stored: set<string>)
  {
    && |l.claimed| == |l.humans|
    && (forall id | id in l.claimed :: id in l.ready)
    && forall e | e in l.players ::
         if e.id in l.humans && e.deck == RANDOM then false
         else e.deck == RANDOM || (!Blank(e.deck) && e.deck in stored)
  }

  predicate Distinct(s: seq<string>)
  {
    forall i, j | 0 <= i < j < |s| :: s[i] != s[j]
  }

  /** A sequence has at most as many members as places, and as many only if no
      two places hold the same. */
  lemma {:induction false} MembersAndPlaces(s: seq<string>)
    ensures |set x | x in s| <= |s|
    ensures |set x | x in s| == |s| <==> Distinct(s)
  {
    if s != [] {
      var before, last := s[..|s| - 1], s[|s| - 1];
      MembersAndPlaces(before);
      var a, b := set x | x in s, set x | x in before;
      assert a == b + {last};
      if last in before {
        var i :| 0 <= i < |before| && before[i] == last;
        assert a == b && s[i] == s[|s| - 1];
      } else {
        assert |a| == |b| + 1;
        assert Distinct(s) <==> Distinct(before);
      }
    } else {
      assert (set x | x in s) == {};
    }
  }

  lemma SubsetSizes(a: set<string>, b: set<string>)
    requires a <= b
    ensures |a| <= |b| && (|a| == |b| ==> a == b)
  {
    var rest := b - a;
    assert b == a + rest;
  }

  /** A lobby can start exactly when every human seat is claimed and ready, no
      human seat is listed twice, and the table's decks can be played. */
  lemma StartsIffEverybodyIsReady(l: Lobby, stored: set<string>)
    requires Inv(l)
    ensures CanStart(l, stored) <==>
            && Distinct(l.humans) && l.claimed == Seats(l) && l.ready == Seats(l)
            && (forall e | e in l.players && e.id in Seats(l) :: Playable(e.deck) && e.deck in stored)
            && (forall e | e in l.players && e.id !in Seats(l) ::
                e.deck == RANDOM || (!Blank(e.deck) && e.deck in stored))
  {
    MembersAndPlaces(l.humans);
    assert Seats(l) == set x | x in l.humans;
    if |l.claimed| == |l.humans| {
      SubsetSizes(l.claimed, Seats(l));
      if forall id | id in l.claimed :: id in l.ready {
        assert l.ready == l.claimed;
      }
    }
  }

  /** A seat's request to change something: the seat meant, its own if None, a
      deck (trimmed), a username (Some(None) where not acceptable), readiness. */
  datatype Update = Update(target: Option<string>, deck: Option<string>, username: Option<Option<string>>,
                           ready: Option<bool>)

  /** What is left of a lobby after an update: even a refused one may have changed it. */
  datatype Updated = Updated(lobby: Lobby, error: Option<string>, launch: bool)

  function TargetOf(player: string, u: Update): string
  {
    if u.target.Some? then u.target.value else player
  }

  /** Why an update is refused before it touches the lobby. */
  function Refusal(l: Lobby, player: string, u: Update, compiled: set<string>): Option<string>
  {
    var target := TargetOf(player, u);
    if u.deck.Some? && u.deck.value != RANDOM && u.deck.value !in compiled then Some("Unknown local deck")
    else if u.username == Some(None) then Some("A username between 1 and 32 characters is required")
    else if l.status.Starting? then Some("The network game is already starting")
    else if target != player && (l.host != player || target in l.claimed)
        then Some("The host may edit only unoccupied AI seats")
    else if target != player && (u.username.Some? || u.ready.Some?) then
      Some("Only a seated player may change their username or ready state")
    else if u.username.Some? && Taken(l, player, u.username.value.value)
        then Some("This username is already in the lobby")
    else if EntryOf(l.players, target).None? then Some("Lobby seat has no matching player")
    else None
  }

  /** A seat with a new deck is no longer ready. */
  function Dealt(l: Lobby, seat: string, deck: Option<string>): Lobby
  {
    if deck.Some? then l.(players := WithDeck(l.players, seat, deck.value), ready := l.ready - {seat}) else l
  }

  /** Nor is a player with a new name. */
  function Renamed(l: Lobby, player: string, username: Option<Option<string>>): Lobby
    requires username != Some(None)
  {
    if username.Some? then l.(usernames := l.usernames[player := username.value.value], ready := l.ready - {player})
        else l
  }

  function MarkedReady(l: Lobby, player: string, ready: Option<bool>): Lobby
  {
    match ready
    case None => l
    case Some(r) => l.(ready := if r then l.ready + {player} else l.ready - {player})
  }

  predicate HasPlayableDeck(l: Lobby, seat: string)
  {
    var k := EntryOf(l.players, seat);
    k.Some? && Playable(l.players[k.value].deck)
  }

  /** A lobby with a seat's new deck and a player's new name. */
  function Changed(l: Lobby, player: string, u: Update): Lobby
    requires u.username != Some(None)
  {
    Renamed(Dealt(l, TargetOf(player, u), u.deck), player, u.username)
  }

  function SeatUpdated(l: Lobby, player: string, u: Update, compiled: set<string>, stored: set<string>): Updated
  {
    var refusal := Refusal(l, player, u, compiled);
    if refusal.Some? then Updated(l, refusal, false)
    else
      var changed := Changed(l, player, u);
      if u.ready == Some(true) && !HasPlayableDeck(changed, TargetOf(player, u)) then
        Updated(changed, Some("Select a deck before becoming ready"), false)
      else
        Settled(MarkedReady(changed, player, u.ready), stored)
  }

  /** The lobby waits again, or starts if it can. */
  function Settled(l: Lobby, stored: set<string>): Updated
  {
    var waiting := l.(error := None, status := Waiting);
    if CanStart(waiting, stored) then Updated(waiting.(status := Starting), None, true)
        else Updated(waiting, None, false)
  }

  lemma DealtKeepsInv(l: Lobby, seat: string, deck: Option<string>)
    requires Inv(l)
    ensures Inv(Dealt(l, seat, deck))
  {
  }

  lemma RenamedKeepsInv(l: Lobby, player: string, username: Option<Option<string>>)
    requires Inv(l) && username != Some(None) && player in l.claimed
    requires username.Some? ==> !Taken(l, player, username.value.value)
    ensures Inv(Renamed(l, player, username))
  {
  }

  lemma MarkedKeepsInv(l: Lobby, player: string, ready: Option<bool>)
    requires Inv(l) && player in l.claimed && (ready == Some(true) ==> HasPlayableDeck(l, player))
    ensures Inv(MarkedReady(l, player, ready))
  {
  }

  predicate SameTable(l: Lobby, after: Lobby)
  {
    after.code == l.code && after.host == l.host && after.humans == l.humans && after.claimed == l.claimed
  }

  lemma ChangesKeepInv(l: Lobby, player: string, u: Update, compiled: set<string>)
    requires Inv(l) && player in l.claimed && Refusal(l, player, u, compiled).None?
    ensures var changed := Changed(l, player, u);
            Inv(changed) && SameTable(l, changed) && changed.status == l.status
                && (u.ready.Some? ==> TargetOf(player, u) == player)
  {
    var target := TargetOf(player, u);
    DealtKeepsInv(l, target, u.deck);
    RenamedKeepsInv(Dealt(l, target, u.deck), player, u.username);
  }

  lemma SettledKeepsInv(l: Lobby, stored: set<string>)
    requires Inv(l)
    ensures var r := Settled(l, stored);
            && Inv(r.lobby)
            && (r.launch ==> Distinct(l.humans) && l.claimed == Seats(l) && l.ready == Seats(l))
            && (r.launch <==> r.lobby.status.Starting?) && (r.launch <==> CanStart(r.lobby, stored))
            && r.error.None? && SameTable(l, r.lobby)
  {
    StartsIffEverybodyIsReady(l.(error := None, status := Waiting), stored);
  }

  /** Every update, accepted or refused, keeps the lobby sound; it launches the
      game exactly when it leaves every human seat claimed and ready, which is
      the only way a lobby comes to be Starting. */
  lemma UpdateKeepsInv(l: Lobby, player: string, u: Update, compiled: set<string>, stored: set<string>)
    requires Inv(l) && player in l.claimed
    ensures var r := SeatUpdated(l, player, u, compiled, stored);
            && Inv(r.lobby)
            && SameTable(l, r.lobby)
            && (r.launch <==> r.lobby.status.Starting? && !l.status.Starting?)
            && (r.launch ==>
                  r.error.None? && Distinct(l.humans) && r.lobby.claimed == Seats(l) && r.lobby.ready == Seats(l))
            && (r.error.None? ==> (r.launch <==> CanStart(r.lobby, stored)))
  {
    if Refusal(l, player, u, compiled).None? {
      ChangesKeepInv(l, player, u, compiled);
      var changed := Changed(l, player, u);
      if u.ready != Some(true) || HasPlayableDeck(changed, TargetOf(player, u)) {
        UpdateSettles(changed, player, u.ready, stored);
      }
    }
  }

  lemma UpdateSettles(changed: Lobby, player: string, ready: Option<bool>, stored: set<string>)
    requires Inv(changed) && player in changed.claimed && (ready == Some(true) ==> HasPlayableDeck(changed, player))
    ensures var r := Settled(MarkedReady(changed, player, ready), stored);
            && Inv(r.lobby) && SameTable(changed, r.lobby) && r.error.None?
            && (r.launch ==>
                  Distinct(changed.humans) && r.lobby.claimed == Seats(changed) && r.lobby.ready == Seats(changed))
            && (r.launch <==> r.lobby.status.Starting?) && (r.launch <==> CanStart(r.lobby, stored))
  {
    MarkedKeepsInv(changed, player, ready);
    SettledKeepsInv(MarkedReady(changed, player, ready), stored);
  }

  predicate DeckIs(players: seq<Entry>, seat: string, deck: string)
  {
    var k := EntryOf(players, seat);
    k.Some? && players[k.value].deck == deck
  }

  lemma ChangedLobby(l: Lobby, player: string, u: Update, seat: string)
    requires u.username != Some(None) && EntryOf(l.players, TargetOf(player, u)).Some?
    ensures var c, target := Changed(l, player, u), TargetOf(player, u);
            && (seat in c.ready <==>
                  seat in l.ready && (u.deck.Some? ==> seat != target) && (u.username.Some? ==> seat != player))
            && c.usernames == (if u.username.Some? then l.usernames[player := u.username.value.value] else l.usernames)
            && (u.deck.Some? ==> DeckIs(c.players, target, u.deck.value))
  {
  }

  lemma MarkedAndSettled(changed: Lobby, player: string, ready: Option<bool>, stored: set<string>, seat: string)
    ensures var r := Settled(MarkedReady(changed, player, ready), stored);
            && r.lobby.usernames == changed.usernames && r.lobby.players == changed.players && r.error.None?
            && (seat in r.lobby.ready <==> if seat == player && ready.Some? then ready.value else seat in changed.ready)
  {
  }

  /** After an accepted update the player is ready as asked, or as before if
      neither name nor own deck changed; everybody else is as before. */
  lemma ReadyAfterUpdate(l: Lobby, player: string, u: Update, compiled: set<string>, stored: set<string>, seat: string)
    requires Inv(l) && player in l.claimed && SeatUpdated(l, player, u, compiled, stored).error.None?
    ensures var after := SeatUpdated(l, player, u, compiled, stored).lobby;
            var touched := u.username.Some? || (u.deck.Some? && TargetOf(player, u) == player);
            && (seat in after.ready <==>
                  if seat != player then seat in l.ready
                  else if u.ready.Some? then u.ready.value
                  else seat in l.ready && !touched)
            && after.usernames == (if u.username.Some? then l.usernames[player := u.username.value.value]
                                   else l.usernames)
            && (u.deck.Some? ==> DeckIs(after.players, TargetOf(player, u), u.deck.value))
  {
    ChangedLobby(l, player, u, seat);
    MarkedAndSettled(Changed(l, player, u), player, u.ready, stored, seat);
  }

  /** An accepted update of another seat is the host's, of a seat nobody has claimed,
      and changes its deck at most. */
  lemma OnlyHostEditsOthers(l: Lobby, player: string, u: Update, compiled: set<string>, stored: set<string>)
    requires Inv(l) && player in l.claimed && SeatUpdated(l, player, u, compiled, stored).error.None?
    requires u.target.Some? && u.target.value != player
    ensures player == l.host && u.target.value !in l.claimed && u.username.None? && u.ready.None?
    ensures var after := SeatUpdated(l, player, u, compiled, stored).lobby;
            after.usernames == l.usernames && after.ready == l.ready && after.claimed == l.claimed
  {
  }

  /** An accepted update finds the lobby not starting, its seat at the table and its
      deck, if any, random or compiled; and its name is acceptable and nobody else's. */
  lemma AcceptedUpdate(l: Lobby, player: string, u: Update, compiled: set<string>, stored: set<string>)
    requires Inv(l) && player in l.claimed && SeatUpdated(l, player, u, compiled, stored).error.None?
    ensures !l.status.Starting? && exists e | e in l.players :: e.id == TargetOf(player, u)
    ensures u.deck.Some? ==> u.deck.value == "random" || u.deck.value in compiled
    ensures u.username.Some? ==>
              && u.username.value.Some?
              && forall id | id in l.claimed && id != player ::
                   !SameIgnoringCase(l.usernames[id], u.username.value.value)
    ensures var after := SeatUpdated(l, player, u, compiled, stored).lobby;
            after.error.None? && (after.status.Waiting? || after.status.Starting?)
  {
    var k := EntryOf(l.players, TargetOf(player, u));
    assert l.players[k.value] in l.players;
  }

  /** An update refused only for want of a deck has still changed deck and name,
      and left the player not ready. */
  lemma RefusedHalfway(l: Lobby, player: string, u: Update, compiled: set<string>, stored: set<string>)
    requires Inv(l) && player in l.claimed && Refusal(l, player, u, compiled).None?
    requires SeatUpdated(l, player, u, compiled, stored).error.Some?
    ensures SeatUpdated(l, player, u, compiled, stored).lobby == Changed(l, player, u)
    ensures u.ready == Some(true) && player !in Changed(l, player, u).ready
            && !HasPlayableDeck(Changed(l, player, u), player)
  {
    ChangesKeepInv(l, player, u, compiled);
  }

  /** The update asks for no deck and no name but those the player has. */
  predicate AsksForNothingNew(l: Lobby, player: string, u: Update)
    requires player in l.usernames
  {
    && (u.deck.Some? ==> DeckIs(l.players, player, u.deck.value))
    && (u.username.Some? ==> u.username.value == Some(l.usernames[player]))
  }

  lemma NothingNew(l: Lobby, player: string, u: Update)
    requires player in l.usernames && AsksForNothingNew(l, player, u) && TargetOf(player, u) == player
    requires EntryOf(l.players, player).Some?
    ensures Changed(l, player, u).players == l.players
    ensures player !in l.ready ==> Changed(l, player, u) == l
  {
    var dealt := Dealt(l, player, u.deck);
    assert dealt.players == l.players;
    if player !in l.ready {
      assert dealt == l;
      assert Renamed(l, player, u.username) == l;
    }
  }

  lemma SomethingNew(l: Lobby, player: string, u: Update)
    requires player in l.usernames && !AsksForNothingNew(l, player, u) && TargetOf(player, u) == player
    requires EntryOf(l.players, player).Some? && u.username != Some(None)
    ensures Changed(l, player, u) != l
  {
    ChangedLobby(l, player, u, player);
    if u.username.Some? && u.username.value.value != l.usernames[player] {
      assert Changed(l, player, u).usernames[player] != l.usernames[player];
    }
  }

  /** A refused update leaves the lobby as it was exactly when it was refused before
      it touched anything, or asked for no deck and name but those of the player. */
  lemma RefusalKeepsLobbyIff(l: Lobby, player: string, u: Update, compiled: set<string>, stored: set<string>)
    requires Inv(l) && player in l.claimed && SeatUpdated(l, player, u, compiled, stored).error.Some?
    ensures SeatUpdated(l, player, u, compiled, stored).lobby == l <==>
            Refusal(l, player, u, compiled).Some? || AsksForNothingNew(l, player, u)
  {
    if Refusal(l, player, u, compiled).None? {
      RefusedHalfway(l, player, u, compiled, stored);
      if AsksForNothingNew(l, player, u) {
        NothingNew(l, player, u);
        assert !HasPlayableDeck(l, player);
      } else {
        SomethingNew(l, player, u);
      }
    }
  }

  const PAIR := Lobby("CODE", "h", ["h", "a"], {"h"}, {}, map["h" := "Hal"], map["h" := 0],
                      [Entry("h", "zoo"), Entry("a", RANDOM)], Waiting, None)
  const GIVE_UP := Update(None, Some(RANDOM), None, Some(true))

  /** So a refusal can cost the deck: asked to be ready with a random deck, the seat
      is refused, and has the random deck. */
  lemma RefusalCanCostTheDeck()
    ensures var r := SeatUpdated(PAIR, "h", GIVE_UP, {"zoo"}, {"zoo"});
            && Inv(PAIR) && DeckIs(PAIR.players, "h", "zoo")
            && r.error == Some("Select a deck before becoming ready") && DeckIs(r.lobby.players, "h", RANDOM)
  {
    assert PAIR.humans[0] == "h" && PAIR.humans[1] == "a";
    assert PAIR.players[..1] == [PAIR.players[0]] && PAIR.players[..1][..0] == [];
    assert EntryOf([PAIR.players[0]], "h") == Some(0);
    assert EntryOf(PAIR.players, "h") == Some(0);
  }

  /** A lobby whose list of human seats repeats one can never start. */
  lemma RepeatedSeatNeverStarts(l: Lobby, player: string, u: Update, compiled: set<string>, stored: set<string>)
    requires Inv(l) && player in l.claimed && !Distinct(l.humans)
    ensures !SeatUpdated(l, player, u, compiled, stored).launch
  {
    UpdateKeepsInv(l, player, u, compiled, stored);
  }

  /** The launching thread's report that it could not. */
  function Broken(l: Lobby, error: string): Lobby
  {
    l.(status := Failed, error := Some(error), ready := {})
  }

  lemma BrokenKeepsInv(l: Lobby, error: string)
    requires Inv(l)
    ensures Inv(Broken(l, error))
  {
  }
}
