/** The registry of network lobbies and games: one request at a time, under its
    lock, from the issue of an invite code to the end of the game. */
module NetworkRegistries {
  import opened Wrappers
  import opened Texts
  import opened NetworkLobbies

  const SEAT_TIMEOUT_SECONDS: nat := 45

  /** A game under way. A player who leaves keeps the username reserved. */
  datatype Game = Game(
    code: string, host: string, humans: seq<string>, claimed: set<string>, usernames: map<string, string>)

  predicate GameInv(g: Game)
  {
    var seats := set id | id in g.humans;
    g.host in g.claimed && g.claimed <= g.usernames.Keys && g.usernames.Keys <= seats && NamesDistinct(g.usernames)
  }

  /** A launching thread, before and after it has copied its lobby. */
  datatype Launch = Spawned | Copied(snapshot: Lobby)

  function GameOf(l: Lobby): (g: Game)
    ensures Inv(l) ==> GameInv(g)
  {
    Game(l.code, l.host, l.humans, l.claimed, l.usernames)
  }

  /** Another seat's name, of a player there now or of one who left, is that one. */
  predicate Reserved(g: Game, seat: string, username: string)
  {
    exists other | other in g.usernames :: other != seat && SameIgnoringCase(g.usernames[other], username)
  }

  /** Which seat a request to join a game gets, or why it is refused. */
  function JoinGameSeat(g: Game, r: Join): Result<string, string>
  {
    if r.username.None? then Failure("A username between 1 and 32 characters is required")
    else
      var asked := if r.seat == Some("") then None else r.seat;
      var free := FreeSeat(g.humans, g.claimed);
      if asked.Some? && asked.value !in g.humans then Failure("The requested seat is not human-controlled")
      else if asked.Some? && asked.value in g.claimed && !r.tokenMatches
          then Failure("The requested seat is already occupied")
      else if asked.Some? && asked.value in g.claimed && asked.value in g.usernames
              && !SameIgnoringCase(g.usernames[asked.value], r.username.value)
                  then Failure("This seat belongs to another username")
      else if asked.None? && free.None? then Failure("Every human seat is already occupied")
      else
        var seat := if asked.Some? then asked.value else free.value;
        if Reserved(g, seat, r.username.value) then Failure("This username is already in the game")
        else Success(seat)
  }

  function GameJoined(g: Game, seat: string, username: string): Game
  {
    g.(claimed := g.claimed + {seat}, usernames := g.usernames[seat := username])
  }

  lemma GameJoinKeepsInv(g: Game, r: Join)
    requires GameInv(g) && JoinGameSeat(g, r).Success?
    ensures GameInv(GameJoined(g, JoinGameSeat(g, r).value, r.username.value))
  {
    var seat, name := JoinGameSeat(g, r).value, r.username.value;
    var after := g.usernames[seat := name];
    forall a, b | a in after && b in after && a != b
      ensures !SameIgnoringCase(after[a], after[b])
    {
      if a == seat {
        assert !SameIgnoringCase(g.usernames[b], name);
      } else if b == seat {
        assert !SameIgnoringCase(g.usernames[a], name);
      }
    }
    assert seat in set id | id in g.humans;
  }

  function GameLeft(g: Game, player: string): Game
  {
    g.(claimed := g.claimed - {player})
  }

  lemma GameLeaveKeepsInv(g: Game, player: string)
    requires GameInv(g) && player != g.host
    ensures GameInv(GameLeft(g, player))
  {
  }

  /** A newcomer gets in exactly when a human seat is free and the name is not
      another seat's; the names of players who left count until their seats are
      taken. The seat is the first free one. */
  lemma GameNewcomerGetsInIff(g: Game, r: Join)
    requires GameInv(g) && (r.seat.None? || r.seat == Some(""))
    ensures JoinGameSeat(g, r).Success? <==>
            && r.username.Some? && (exists id | id in g.humans :: id !in g.claimed)
            && forall id | id in g.usernames && Some(id) != FreeSeat(g.humans, g.claimed) ::
                 !SameIgnoringCase(g.usernames[id], r.username.value)
    ensures JoinGameSeat(g, r).Success? ==> Some(JoinGameSeat(g, r).value) == FreeSeat(g.humans, g.claimed)
  {
  }

  /** A seat asked for by its id: a claimed one is resumed exactly by its token and
      its name; a free one goes to anybody whose name is not another seat's. */
  lemma GameSeatIsGivenIff(g: Game, r: Join)
    requires GameInv(g) && r.seat.Some? && r.seat.value != ""
    ensures JoinGameSeat(g, r).Success? <==>
            && r.username.Some?
            && if r.seat.value in g.claimed
               then r.tokenMatches && SameIgnoringCase(g.usernames[r.seat.value], r.username.value)
               else r.seat.value in g.humans && !Reserved(g, r.seat.value, r.username.value)
    ensures JoinGameSeat(g, r).Success? ==> JoinGameSeat(g, r).value == r.seat.value
  {
  }

  /** A player who is away comes back under the old name, without asking for the
      seat, exactly when that seat is the first free one: otherwise the name left
      behind at the seat is in the player's own way. */
  lemma AbsentPlayerReturnsIff(g: Game, seat: string, username: string)
    requires GameInv(g) && seat in g.usernames && seat !in g.claimed && SameIgnoringCase(g.usernames[seat], username)
    ensures var r := JoinGameSeat(g, Join(None, false, Some(username)));
            if FreeSeat(g.humans, g.claimed) == Some(seat) then r == Success(seat)
            else r == Failure("This username is already in the game")
    ensures seat != "" ==> JoinGameSeat(g, Join(Some(seat), false, Some(username))) == Success(seat)
  {
    assert seat in set id | id in g.humans;
    var free := FreeSeat(g.humans, g.claimed);
    if free == Some(seat) {
      GameNewcomerGetsInIff(g, Join(None, false, Some(username)));
    } else {
      assert Reserved(g, free.value, username);
    }
    if seat != "" {
      GameSeatIsGivenIff(g, Join(Some(seat), false, Some(username)));
    }
  }

  /** Leaving a game and joining it again, plainly and under the same name, is
      possible exactly when the seat left is then the first free one; and then it
      restores the game. */
  lemma GameLeaverReturnsIff(g: Game, seat: string)
    requires GameInv(g) && seat in g.claimed && seat != g.host
    ensures var away := GameLeft(g, seat);
            var r := JoinGameSeat(away, Join(None, false, Some(g.usernames[seat])));
            && (r.Success? <==> FreeSeat(away.humans, away.claimed) == Some(seat))
            && (r.Success? ==> r.value == seat && GameJoined(away, seat, g.usernames[seat]) == g)
  {
    AbsentPlayerReturnsIff(GameLeft(g, seat), seat, g.usernames[seat]);
    assert g.claimed - {seat} + {seat} == g.claimed;
  }

  const FULL_GAME := Game("CODE", "h", ["h", "a", "b"], {"h", "a", "b"}, map["h" := "Hal", "a" := "Ann", "b" := "Bob"])

  /** Two players leave; the one of the later seat is refused under the own name,
      although two seats are free and nobody in the game goes by it. */
  lemma LeaverCanBeRefused()
    ensures GameInv(FULL_GAME)
    ensures var away := GameLeft(GameLeft(FULL_GAME, "a"), "b");
            && away.claimed == {"h"}
            && JoinGameSeat(away, Join(None, false, Some("Bob"))) == Failure("This username is already in the game")
  {
    FullGameIsSound(FULL_GAME);
    var left := GameLeft(FULL_GAME, "a");
    GameLeaveKeepsInv(FULL_GAME, "a");
    GameLeaveKeepsInv(left, "b");
    var away := GameLeft(left, "b");
    assert away.humans[1] == "a" != "b";
    FirstFreeOfThree(away.humans, away.claimed);
    AbsentPlayerReturnsIff(away, "b", "Bob");
  }

  lemma FullGameIsSound(g: Game)
    requires g.host == "h" && g.humans == ["h", "a", "b"] && g.claimed == {"h", "a", "b"}
    requires g.usernames == map["h" := "Hal", "a" := "Ann", "b" := "Bob"]
    ensures GameInv(g)
  {
    assert g.humans[0] == "h" && g.humans[1] == "a" && g.humans[2] == "b";
    assert "Hal"[0] == 'H' && "Ann"[0] == 'A' && "Bob"[0] == 'B';
  }

  lemma FirstFreeOfThree(humans: seq<string>, claimed: set<string>)
    requires |humans| == 3 && humans[0] in claimed && humans[1] !in claimed
    ensures FreeSeat(humans, claimed) == Some(humans[1])
  {
    assert humans[..2][..1] == [humans[0]] && [humans[0]][..0] == [];
    assert FreeSeat([humans[0]], claimed) == None;
    assert humans[..2][1] == humans[1];
    assert FreeSeat(humans[..2], claimed) == Some(humans[1]);
  }

  function Touched(l: Lobby, player: string, now: nat): Lobby
  {
    l.(lastSeen := l.lastSeen[player := now])
  }

  predicate StillSeen(l: Lobby, now: nat)
  {
    exists id | id in l.claimed :: id in l.lastSeen && now - l.lastSeen[id] < SEAT_TIMEOUT_SECONDS
  }

  /** Somebody seated was seen no longer than 45 seconds ago. */
  predicate SeenSince(l: Lobby, player: string, asked: nat)
  {
    player in l.claimed && player in l.lastSeen && l.lastSeen[player] >= asked
  }

  /** A request is seen at its time, and stays seen whatever is done to the lobby but
      the player's leaving; and for 45 seconds from it the cleaning spares the lobby. */
  lemma RequestKeepsLobby(l: Lobby, player: string, asked: nat, now: nat, who: string, u: Update,
                          compiled: set<string>, stored: set<string>, username: string)
    requires asked <= now
    ensures player in l.claimed ==> SeenSince(Touched(l, player, asked), player, asked)
    ensures SeenSince(Joined(l, player, username, asked), player, asked)
    ensures SeenSince(l, player, asked) ==>
              && SeenSince(SeatUpdated(Touched(l, who, now), who, u, compiled, stored).lobby, player, asked)
              && SeenSince(Joined(l, who, username, now), player, asked)
              && (who != player ==> SeenSince(Left(l, who), player, asked))
              && (now < asked + 45 ==> StillSeen(l, now))
  {
    UpdateKeepsSeen(Touched(l, who, now), who, u, compiled, stored);
  }

  lemma UpdateKeepsSeen(l: Lobby, player: string, u: Update, compiled: set<string>, stored: set<string>)
    ensures SeatUpdated(l, player, u, compiled, stored).lobby.lastSeen == l.lastSeen
    ensures SeatUpdated(l, player, u, compiled, stored).lobby.claimed == l.claimed
  {
    if Refusal(l, player, u, compiled).None? {
      ChangedKeepsSeen(l, player, u);
      SettledKeepsSeen(MarkedReady(Changed(l, player, u), player, u.ready), stored);
    }
  }

  lemma ChangedKeepsSeen(l: Lobby, player: string, u: Update)
    requires u.username != Some(None)
    ensures Changed(l, player, u).lastSeen == l.lastSeen && Changed(l, player, u).claimed == l.claimed
  {
  }

  lemma SettledKeepsSeen(l: Lobby, stored: set<string>)
    ensures Settled(l, stored).lobby.lastSeen == l.lastSeen && Settled(l, stored).lobby.claimed == l.claimed
  {
  }

  // ------------------------------------------------ what holds of the registry

  /** Codes of lobbies and games are issued codes, and never the same. */
  ghost predicate CodesOk(issued: set<string>, lobbies: map<string, Lobby>, invites: map<string, string>,
                          launching: map<string, Launch>)
  {
    && lobbies.Keys <= issued && invites.Keys <= issued && launching.Keys <= issued
    && lobbies.Keys !! invites.Keys
  }

  ghost predicate LobbyOk(code: string, l: Lobby, launched: bool)
  {
    l.code == code && Inv(l) && (l.status.Starting? <==> launched)
  }

  /** A lobby is Starting exactly while a thread is launching it. */
  ghost predicate LobbiesOk(lobbies: map<string, Lobby>, launching: map<string, Launch>)
  {
    forall c | c in lobbies :: LobbyOk(c, lobbies[c], c in launching)
  }

  ghost predicate LaunchOk(code: string, t: Launch)
  {
    t.Copied? ==> t.snapshot.code == code && Inv(t.snapshot)
  }

  ghost predicate LaunchesOk(launching: map<string, Launch>)
  {
    forall c | c in launching :: LaunchOk(c, launching[c])
  }

  /** The two indexes of games are mutually inverse. */
  ghost predicate GamesOk(invites: map<string, string>, sessions: map<string, Game>)
  {
    && (forall c | c in invites :: invites[c] in sessions && sessions[invites[c]].code == c)
    && (forall s | s in sessions ::
          sessions[s].code in invites && invites[sessions[s].code] == s && GameInv(sessions[s]))
  }

  lemma SetLobby(lobbies: map<string, Lobby>, launching: map<string, Launch>, code: string, l: Lobby)
    requires LobbiesOk(lobbies, launching) && LobbyOk(code, l, code in launching)
    ensures LobbiesOk(lobbies[code := l], launching)
  {
  }

  lemma DropLobby(lobbies: map<string, Lobby>, launching: map<string, Launch>, code: string)
    requires LobbiesOk(lobbies, launching)
    ensures LobbiesOk(lobbies - {code}, launching) && LobbiesOk(lobbies - {code}, launching - {code})
  {
  }

  lemma SetLaunch(lobbies: map<string, Lobby>, launching: map<string, Launch>, code: string, t: Launch)
    requires LaunchesOk(launching) && LaunchOk(code, t)
    ensures LaunchesOk(launching[code := t]) && LaunchesOk(launching - {code})
    ensures LobbiesOk(lobbies, launching) && code in launching ==> LobbiesOk(lobbies, launching[code := t])
  {
  }

  lemma AddGame(invites: map<string, string>, sessions: map<string, Game>, session: string, g: Game)
    requires GamesOk(invites, sessions) && GameInv(g) && session !in sessions && g.code !in invites
    ensures GamesOk(invites[g.code := session], sessions[session := g])
  {
  }

  lemma SetGame(invites: map<string, string>, sessions: map<string, Game>, session: string, g: Game)
    requires GamesOk(invites, sessions) && GameInv(g) && session in sessions && g.code == sessions[session].code
    ensures GamesOk(invites, sessions[session := g])
  {
  }

  lemma UpdatedLobbyOk(code: string, l: Lobby, launched: bool, player: string, u: Update, compiled: set<string>,
                       stored: set<string>)
    requires LobbyOk(code, l, launched) && player in l.claimed
    ensures var r := SeatUpdated(l, player, u, compiled, stored);
            && LobbyOk(code, r.lobby, launched || r.launch)
            && (r.launch ==> !launched && r.lobby.ready == r.lobby.claimed == Seats(r.lobby))
  {
    UpdateKeepsInv(l, player, u, compiled, stored);
  }

  lemma SetLobbyLaunched(issued: set<string>, lobbies: map<string, Lobby>, invites: map<string, string>,
                         launching: map<string, Launch>,
                         code: string, l: Lobby, launched: bool)
    requires CodesOk(issued, lobbies, invites, launching) && LobbiesOk(lobbies, launching) && LaunchesOk(launching)
    requires code in lobbies && LobbyOk(code, l, launched) && (code in launching ==> launched)
    ensures var after := if launched && code !in launching then launching[code := Spawned] else launching;
            CodesOk(issued, lobbies[code := l], invites, after) && LobbiesOk(lobbies[code := l], after)
                && LaunchesOk(after)
  {
    if launched && code !in launching {
      SetLaunch(lobbies, launching, code, Spawned);
    } else {
      SetLobby(lobbies, launching, code, l);
    }
  }

  /** The registry's maps after a seat update. */
  lemma UpdatedMapsOk(issued: set<string>, lobbies: map<string, Lobby>, invites: map<string, string>,
                      launching: map<string, Launch>,
                      code: string, player: string, u: Update, compiled: set<string>, stored: set<string>)
    requires CodesOk(issued, lobbies, invites, launching) && LobbiesOk(lobbies, launching) && LaunchesOk(launching)
    requires code in lobbies && player in lobbies[code].claimed
    ensures var r := SeatUpdated(lobbies[code], player, u, compiled, stored);
            var after := if r.launch then launching[code := Spawned] else launching;
            && CodesOk(issued, lobbies[code := r.lobby], invites, after) && LobbiesOk(lobbies[code := r.lobby], after)
                && LaunchesOk(after)
            && (r.launch ==> code !in launching && r.lobby.ready == r.lobby.claimed == Seats(r.lobby))
  {
    var launched := code in launching;
    assert LobbyOk(code, lobbies[code], launched);
    UpdatedLobbyOk(code, lobbies[code], launched, player, u, compiled, stored);
    var r := SeatUpdated(lobbies[code], player, u, compiled, stored);
    SetLobbyLaunched(issued, lobbies, invites, launching, code, r.lobby, launched || r.launch);
  }

  lemma LeftLobbyOk(code: string, l: Lobby, launched: bool, player: string)
    requires LobbyOk(code, l, launched) && player in l.claimed && l.claimed != {player}
    ensures LobbyOk(code, Left(l, player), launched)
  {
    LeaveKeepsInv(l, player);
  }

  lemma TouchedLobbyOk(code: string, l: Lobby, launched: bool, player: string, now: nat)
    requires LobbyOk(code, l, launched) && player in l.claimed
    ensures LobbyOk(code, Touched(l, player, now), launched)
  {
  }

  lemma JoinedLobbyOk(code: string, l: Lobby, launched: bool, join: Join, now: nat)
    requires LobbyOk(code, l, launched) && JoinSeat(l, join).Success?
    ensures LobbyOk(code, Joined(l, JoinSeat(l, join).value, join.username.value, now), launched)
  {
    JoinKeepsInv(l, join, now);
  }

  lemma Overwrites<V>(m: map<string, V>, key: string, first: V, second: V)
    ensures m[key := first][key := second] == m[key := second] && m[key := first] - {key} == m - {key}
  {
  }

  lemma FirstGame(code: string, host: string, humans: seq<string>, username: string)
    requires host in humans
    ensures GameInv(Game(code, host, humans, {host}, map[host := username]))
  {
    assert host in set id | id in humans;
  }

  class Registry {
    var issued: set<string>
    var lobbies: map<string, Lobby>
    var inviteToSession: map<string, string>
    var sessions: map<string, Game>
    var launching: map<string, Launch>

    ghost predicate Valid()
      reads this
    {
      && CodesOk(issued, lobbies, inviteToSession, launching)
      && LobbiesOk(lobbies, launching) && LaunchesOk(launching) && GamesOk(inviteToSession, sessions)
    }

    constructor ()
      ensures Valid() && issued == {} && lobbies == map[] && sessions == map[]
    {
      issued, lobbies, inviteToSession, sessions, launching := {}, map[], map[], map[], map[];
    }

    /** Draws codes until one was never issued; None if the draws given run out. */
    method DrawCode(draws: seq<string>) returns (code: Option<string>)
      requires Valid()
      ensures code.Some? ==> code.value in draws && code.value !in issued
      ensures code.None? ==> forall c | c in draws :: c in issued
    {
      var i := 0;
      while i < |draws|
        invariant 0 <= i <= |draws|
        invariant forall j | 0 <= j < i :: draws[j] in issued
      {
        if draws[i] !in issued && draws[i] !in lobbies && draws[i] !in inviteToSession {
          return Some(draws[i]);
        }
        i := i + 1;
      }
      return None;
    }

    method CreateLobby(c: Creation, draws: seq<string>, now: nat) returns (r: Result<string, string>)
      requires Valid()
      modifies this
      ensures Valid() && launching == old(launching) && sessions == old(sessions)
              && inviteToSession == old(inviteToSession)
      ensures match r
              case Failure(_) => issued == old(issued) && lobbies == old(lobbies)
              case Success(code) =>
                && code !in old(issued) && issued == old(issued) + {code}
                && Created(c, code, now).Success? && lobbies == old(lobbies)[code := Created(c, code, now).value]
    {
      if Created(c, "", now).Failure? {
        return Failure(Created(c, "", now).error);
      }
      var code := DrawCode(draws);
      if code.None? {
        return Failure("still drawing a code");
      }
      CreatedIsSound(c, code.value, now);
      assert LobbyOk(code.value, Created(c, code.value, now).value, code.value in launching);
      SetLobby(lobbies, launching, code.value, Created(c, code.value, now).value);
      issued := issued + {code.value};
      lobbies := lobbies[code.value := Created(c, code.value, now).value];
      return Success(code.value);
    }

    method JoinLobby(code: string, join: Join, now: nat) returns (r: Result<string, string>)
      requires Valid()
      modifies this`lobbies
      ensures Valid()
      ensures r == if code in old(lobbies) then JoinSeat(old(lobbies)[code], join) else Failure("Unknown network lobby")
      ensures lobbies == if r.Success? then old(lobbies)[code :=
                                                         Joined(old(lobbies)[code], r.value, join.username.value,
                                                                now)] else old(lobbies)
      ensures r.Success? ==>
                var before, seat := old(lobbies)[code], r.value;
                && join.username.Some?
                && lobbies[code] == before.(claimed := before.claimed + {seat}, ready := before.ready - {seat},
                                            usernames := before.usernames[seat := join.username.value],
                                            lastSeen := before.lastSeen[seat := now])
    {
      if code !in lobbies {
        return Failure("Unknown network lobby");
      }
      r := JoinSeat(lobbies[code], join);
      if r.Success? {
        JoinedLobbyOk(code, lobbies[code], code in launching, join, now);
        SetLobby(lobbies, launching, code, Joined(lobbies[code], r.value, join.username.value, now));
        lobbies := lobbies[code := Joined(lobbies[code], r.value, join.username.value, now)];
      }
    }

    /** A request's seat token: it must be that of a claimed seat. */
    method Authenticate(code: string, player: string, tokenMatches: bool, now: nat) returns (error: Option<string>)
      requires Valid()
      modifies this`lobbies
      ensures Valid()
      ensures error.None? <==> code in old(lobbies) && player in old(lobbies)[code].claimed && tokenMatches
      ensures lobbies == if error.None? then old(lobbies)[code := Touched(old(lobbies)[code], player, now)]
              else old(lobbies)
      ensures error.None? ==>
                lobbies[code] == old(lobbies)[code].(lastSeen := old(lobbies)[code].lastSeen[player := now])
    {
      if code !in lobbies {
        return Some("Unknown network lobby");
      }
      if player !in lobbies[code].claimed || !tokenMatches {
        return Some("A valid network seat token is required");
      }
      TouchedLobbyOk(code, lobbies[code], code in launching, player, now);
      SetLobby(lobbies, launching, code, Touched(lobbies[code], player, now));
      lobbies := lobbies[code := Touched(lobbies[code], player, now)];
      return None;
    }

    /** The last player to leave takes the lobby along. */
    method LeaveLobby(code: string, player: string, tokenMatches: bool, now: nat) returns (error: Option<string>)
      requires Valid()
      modifies this`lobbies
      ensures Valid()
      ensures error.None? <==> code in old(lobbies) && player in old(lobbies)[code].claimed && tokenMatches
      ensures lobbies == if error.Some? then old(lobbies)
                         else if old(lobbies)[code].claimed == {player} then old(lobbies) - {code}
                         else old(lobbies)[code := Left(Touched(old(lobbies)[code], player, now), player)]
    {
      error := Authenticate(code, player, tokenMatches, now);
      if error.None? {
        ghost var before := old(lobbies)[code];
        Overwrites(old(lobbies), code, Touched(before, player, now), Left(Touched(before, player, now), player));
        DropSeat(code, player);
      }
    }

    method DropSeat(code: string, player: string)
      requires Valid() && code in lobbies && player in lobbies[code].claimed
      modifies this`lobbies
      ensures Valid()
      ensures lobbies == if old(lobbies)[code].claimed == {player} then old(lobbies) - {code}
                         else old(lobbies)[code := Left(old(lobbies)[code], player)]
    {
      var lobby := Left(lobbies[code], player);
      assert lobbies[code].claimed == lobby.claimed + {player};
      if lobby.claimed == {} {
        DropLobby(lobbies, launching, code);
        lobbies := lobbies - {code};
      } else {
        LeftLobbyOk(code, lobbies[code], code in launching, player);
        SetLobby(lobbies, launching, code, lobby);
        lobbies := lobbies[code := lobby];
      }
    }

    /** A seat update. A launch begins only for a lobby no thread is launching, with
        every human seat claimed and ready. */
    method UpdateSeat(code: string, player: string, tokenMatches: bool, u: Update, compiled: set<string>,
                      stored: set<string>, now: nat)
      returns (error: Option<string>, launch: bool)
      requires Valid()
      modifies this`lobbies, this`launching
      ensures Valid()
      ensures code in old(lobbies) && player in old(lobbies)[code].claimed && tokenMatches ==>
                var r := SeatUpdated(Touched(old(lobbies)[code], player, now), player, u, compiled, stored);
                error == r.error && launch == r.launch && lobbies == old(lobbies)[code := r.lobby]
      ensures !(code in old(lobbies) && player in old(lobbies)[code].claimed && tokenMatches) ==>
                error.Some? && !launch && lobbies == old(lobbies)
      ensures launching == if launch then old(launching)[code := Spawned] else old(launching)
      ensures launch ==> code !in old(launching) && lobbies[code].ready == lobbies[code].claimed == Seats(lobbies[code])
    {
      launch := false;
      error := Authenticate(code, player, tokenMatches, now);
      if error.None? {
        ghost var lobby := lobbies[code];
        ghost var after := SeatUpdated(lobby, player, u, compiled, stored).lobby;
        Overwrites(old(lobbies), code, lobby, after);
        error, launch := ChangeSeat(code, player, u, compiled, stored);
      }
    }

    method ChangeSeat(code: string, player: string, u: Update, compiled: set<string>, stored: set<string>)
      returns (error: Option<string>, launch: bool)
      requires Valid() && code in lobbies && player in lobbies[code].claimed
      modifies this`lobbies, this`launching
      ensures Valid()
      ensures var r := SeatUpdated(old(lobbies)[code], player, u, compiled, stored);
              error == r.error && launch == r.launch && lobbies == old(lobbies)[code := r.lobby]
      ensures launching == if launch then old(launching)[code := Spawned] else old(launching)
      ensures launch ==> code !in old(launching) && lobbies[code].ready == lobbies[code].claimed == Seats(lobbies[code])
    {
      UpdatedMapsOk(issued, lobbies, inviteToSession, launching, code, player, u, compiled, stored);
      var r := SeatUpdated(lobbies[code], player, u, compiled, stored);
      error, launch := r.error, r.launch;
      Store(lobbies[code := r.lobby], if launch then launching[code := Spawned] else launching);
    }

    method Store(after: map<string, Lobby>, threads: map<string, Launch>)
      requires Valid() && CodesOk(issued, after, inviteToSession, threads) && LobbiesOk(after, threads)
               && LaunchesOk(threads)
      modifies this`lobbies, this`launching
      ensures Valid() && lobbies == after && launching == threads
    {
      lobbies, launching := after, threads;
    }

    /** A launching thread copies its lobby, or finds it gone and ends. */
    method CopyLobby(code: string)
      requires Valid() && code in launching && launching[code].Spawned?
      modifies this`launching
      ensures Valid()
      ensures launching == if code in lobbies then old(launching)[code := Copied(lobbies[code])]
              else old(launching) - {code}
    {
      if code in lobbies {
        assert LobbyOk(code, lobbies[code], true);
        SetLaunch(lobbies, launching, code, Copied(lobbies[code]));
        launching := launching[code := Copied(lobbies[code])];
      } else {
        SetLaunch(lobbies, launching, code, Spawned);
        DropLobby(lobbies, launching, code);
        assert lobbies - {code} == lobbies;
        launching := launching - {code};
      }
    }

    method FailLaunch(code: string, error: string)
      requires Valid() && code in launching
      modifies this`lobbies, this`launching
      ensures Valid() && launching == old(launching) - {code}
      ensures lobbies == if code in old(lobbies) then old(lobbies)[code := Broken(old(lobbies)[code], error)]
              else old(lobbies)
      ensures code in lobbies ==>
                var before, after := old(lobbies)[code], lobbies[code];
                && after.status.Failed? && after.error == Some(error) && after.ready == {}
                && after == before.(status := after.status, error := after.error, ready := {})
    {
      SetLaunch(lobbies, launching, code, Spawned);
      if code in lobbies {
        assert LobbyOk(code, lobbies[code], true);
        BrokenKeepsInv(lobbies[code], error);
        lobbies := lobbies[code := Broken(lobbies[code], error)];
      } else {
        DropLobby(lobbies, launching, code);
        assert lobbies - {code} == lobbies;
      }
      launching := launching - {code};
    }

    /** The game replaces its lobby, seated as the lobby was when it was copied;
        a lobby closed in the meantime gets no game. */
    method FinishLaunch(code: string, session: string) returns (started: bool)
      requires Valid() && code in launching && launching[code].Copied? && session !in sessions
      modifies this`lobbies, this`launching, this`sessions, this`inviteToSession
      ensures Valid() && launching == old(launching) - {code}
      ensures started <==> code in old(lobbies)
      ensures lobbies == old(lobbies) - {code}
      ensures inviteToSession == if started then old(inviteToSession)[code := session] else old(inviteToSession)
      ensures sessions == if started then old(sessions)[session := GameOf(old(launching)[code].snapshot)]
              else old(sessions)
      ensures started ==>
                var game, copy := sessions[session], old(launching)[code].snapshot;
                && game.code == code && game.host == copy.host && game.humans == copy.humans
                && game.claimed == copy.claimed && game.usernames == copy.usernames
    {
      var lobby := launching[code].snapshot;
      assert LaunchOk(code, launching[code]);
      SetLaunch(lobbies, launching, code, Spawned);
      DropLobby(lobbies, launching, code);
      launching := launching - {code};
      started := code in lobbies;
      if started {
        AddGame(inviteToSession, sessions, session, GameOf(lobby));
        lobbies := lobbies - {code};
        inviteToSession := inviteToSession[code := session];
        sessions := sessions[session := GameOf(lobby)];
      } else {
        assert lobbies - {code} == lobbies;
      }
    }

    /** A game that had no lobby. The code is spent even if the username is refused. */
    method RegisterGame(session: string, host: string, humans: seq<string>, username: Option<string>,
                        draws: seq<string>)
      returns (r: Result<string, string>, ghost spent: Option<string>)
      requires Valid() && session !in sessions
      modifies this`issued, this`sessions, this`inviteToSession
      ensures Valid() && (spent.Some? ==> spent.value in draws && spent.value !in old(issued))
      ensures issued == if spent.Some? then old(issued) + {spent.value} else old(issued)
      ensures spent.Some? <==> humans != [] && host in humans && exists c | c in draws :: c !in old(issued)
      ensures r.Success? <==> spent.Some? && username.Some?
      ensures r.Success? ==>
                && r.value == spent.value && inviteToSession == old(inviteToSession)[r.value := session]
                && sessions == old(sessions)[session := Game(r.value, host, humans, {host},
                                                             map[host := username.value])]
      ensures r.Failure? ==> sessions == old(sessions) && inviteToSession == old(inviteToSession)
    {
      spent := None;
      if humans == [] {
        return Failure("Network games require at least one human seat"), None;
      }
      if host !in humans {
        return Failure("The network host must control a human seat"), None;
      }
      var code := DrawCode(draws);
      if code.None? {
        return Failure("still drawing a code"), None;
      }
      issued, spent := issued + {code.value}, code;
      if username.None? {
        return Failure("A username between 1 and 32 characters is required"), spent;
      }
      FirstGame(code.value, host, humans, username.value);
      AddGame(inviteToSession, sessions, session, Game(code.value, host, humans, {host}, map[host := username.value]));
      inviteToSession := inviteToSession[code.value := session];
      sessions := sessions[session := Game(code.value, host, humans, {host}, map[host := username.value])];
      return Success(code.value), spent;
    }

    method UnregisterGame(session: string)
      requires Valid()
      modifies this`sessions, this`inviteToSession
      ensures Valid() && sessions == old(sessions) - {session}
      ensures inviteToSession == if session in old(sessions) then old(inviteToSession) - {old(sessions)[session].code}
              else old(inviteToSession)
    {
      if session in sessions {
        inviteToSession := inviteToSession - {sessions[session].code};
        sessions := sessions - {session};
      } else {
        assert sessions - {session} == sessions;
      }
    }

    method JoinGame(code: string, join: Join) returns (r: Result<string, string>)
      requires Valid()
      modifies this`sessions
      ensures Valid()
      ensures code !in inviteToSession ==> r.Failure? && sessions == old(sessions)
      ensures code in inviteToSession ==>
                var s := inviteToSession[code];
                && r == JoinGameSeat(old(sessions)[s], join)
                && sessions == if r.Success? then old(sessions)[s :=
                                                                GameJoined(old(sessions)[s], r.value,
                                                                    join.username.value)] else old(sessions)
      ensures r.Success? ==>
                var g := old(sessions)[inviteToSession[code]];
                && r.value in g.humans && (r.value in g.claimed ==> join.tokenMatches)
                && !Reserved(g, r.value, join.username.value)
                && sessions[inviteToSession[code]]
                   == g.(claimed := g.claimed + {r.value}, usernames := g.usernames[r.value := join.username.value])
    {
      if code !in inviteToSession {
        return Failure("Unknown or expired network invitation");
      }
      var session := inviteToSession[code];
      r := JoinGameSeat(sessions[session], join);
      if r.Success? {
        GameJoinKeepsInv(sessions[session], join);
        SetGame(inviteToSession, sessions, session, GameJoined(sessions[session], r.value, join.username.value));
        sessions := sessions[session := GameJoined(sessions[session], r.value, join.username.value)];
      }
    }

    /** Anybody but the host may leave a game. */
    method LeaveGame(session: string, player: string) returns (error: Option<string>)
      requires Valid()
      modifies this`sessions
      ensures Valid()
      ensures error.None? <==> session in old(sessions) && old(sessions)[session].host != player
      ensures sessions == if error.Some? then old(sessions)
                          else old(sessions)[session := GameLeft(old(sessions)[session], player)]
      ensures error.None? ==>
                var g := old(sessions)[session]; sessions[session] == g.(claimed := g.claimed - {player})
    {
      if session !in sessions {
        return Some("Unknown network game");
      }
      if sessions[session].host == player {
        return Some("The host must close the network game");
      }
      GameLeaveKeepsInv(sessions[session], player);
      SetGame(inviteToSession, sessions, session, GameLeft(sessions[session], player));
      sessions := sessions[session := GameLeft(sessions[session], player)];
      return None;
    }

    /** The cleaning thread drops lobbies nobody has been seen in lately. */
    method CleanUp(now: nat)
      requires Valid()
      modifies this`lobbies
      ensures Valid() && lobbies == map c | c in old(lobbies) && StillSeen(old(lobbies)[c], now) :: old(lobbies)[c]
      ensures forall c | c in old(lobbies) ::
                c in lobbies <==> exists id | id in old(lobbies)[c].claimed :: now < old(lobbies)[c].lastSeen[id] + 45
    {
      lobbies := map c | c in lobbies && StillSeen(lobbies[c], now) :: lobbies[c];
    }
  }

  // --------------------------------------------------------------- whole runs

  /** One entry into the registry, by a request or by one of its threads. */
  datatype Request =
    | Create(creation: Creation, draws: seq<string>)
    | JoinALobby(code: string, join: Join)
    | Leave(code: string, player: string, tokenMatches: bool)
    | UpdateASeat(code: string, player: string, tokenMatches: bool, update: Update, compiled: set<string>,
                  stored: set<string>)
    | Copy(code: string)
    | Fail(code: string, error: string)
    | Finish(code: string, session: string)
    | Register(session: string, host: string, humans: seq<string>, username: Option<string>, draws: seq<string>)
    | Unregister(session: string)
    | JoinAGame(code: string, join: Join)
    | LeaveAGame(session: string, player: string)
    | Clean

  /** Serves any requests in any order, each at its time; a thread's entry happens
      only while the thread is there, a new session has a new id. The invariant
      always holds, and no invite code is ever given out twice. */
  method Serve(registry: Registry, requests: seq<(Request, nat)>) returns (codes: seq<Option<string>>)
    requires registry.Valid()
    modifies registry
    ensures registry.Valid() && |codes| == |requests|
    ensures forall i | 0 <= i < |codes| && codes[i].Some? ::
            codes[i].value in registry.issued && codes[i].value !in old(registry.issued)
    ensures forall i, j | 0 <= i < j < |codes| && codes[i].Some? && codes[j].Some? :: codes[i] != codes[j]
  {
    codes := [];
    for n := 0 to |requests|
      invariant registry.Valid() && |codes| == n && old(registry.issued) <= registry.issued
      invariant forall i | 0 <= i < |codes| && codes[i].Some? ::
                codes[i].value in registry.issued && codes[i].value !in old(registry.issued)
      invariant forall i, j | 0 <= i < j < |codes| && codes[i].Some? && codes[j].Some? :: codes[i] != codes[j]
    {
      var code := ServeOne(registry, requests[n].0, requests[n].1);
      codes := codes + [code];
    }
  }

  method ServeOne(registry: Registry, request: Request, now: nat) returns (code: Option<string>)
    requires registry.Valid()
    modifies registry
    ensures registry.Valid() && old(registry.issued) <= registry.issued
    ensures code.Some? ==> code.value in registry.issued && code.value !in old(registry.issued)
  {
    code := None;
    match request {
      case Create(creation, draws) =>
        var r := registry.CreateLobby(creation, draws, now);
        code := if r.Success? then Some(r.value) else None;
      case JoinALobby(c, join) => var _ := registry.JoinLobby(c, join, now);
      case Leave(c, player, tokenMatches) => var _ := registry.LeaveLobby(c, player, tokenMatches, now);
      case UpdateASeat(c, player, tokenMatches, update, compiled, stored) =>
        var _, _ := registry.UpdateSeat(c, player, tokenMatches, update, compiled, stored, now);
      case Copy(c) =>
        if c in registry.launching && registry.launching[c].Spawned? {
          registry.CopyLobby(c);
        }
      case Fail(c, error) =>
        if c in registry.launching {
          registry.FailLaunch(c, error);
        }
      case Finish(c, session) =>
        if c in registry.launching && registry.launching[c].Copied? && session !in registry.sessions {
          var _ := registry.FinishLaunch(c, session);
        }
      case Register(session, host, humans, username, draws) =>
        if session !in registry.sessions {
          var r, _ := registry.RegisterGame(session, host, humans, username, draws);
          code := if r.Success? then Some(r.value) else None;
        }
      case Unregister(session) => registry.UnregisterGame(session);
      case JoinAGame(c, join) => var _ := registry.JoinGame(c, join);
      case LeaveAGame(session, player) => var _ := registry.LeaveGame(session, player);
      case Clean => registry.CleanUp(now);
    }
  }
}
