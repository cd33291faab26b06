/** What one player of a network game is shown: the session view with the cards
    that player may not see replaced by blanks. */
module SessionViews {
  import opened Wrappers
  import opened Decimal

  // ------------------------------------------------------------------ the view

  /** A permanent's continuous rule, as far as it reveals hands. */
  datatype Rule = RevealsOpponentsHands | OtherRule(text: string)

  /** Everything of a card that a blank forgets. */
  datatype Face = Face(
    name: string, text: string, rules: seq<Rule>, printed: Option<string>, tapped: bool, summoningSick: bool,
    damage: int, power: int, toughness: int, counters: map<string, int>, flags: map<string, bool>,
    battleProtector: Option<string>, attachedTo: Option<string>)

  datatype Card = Card(instanceId: string, owner: string, controller: string, face: Face)

  /** A rule modifier: the four kinds the projection reads, and the rest. */
  datatype Modifier =
    | KnownLibraryCards(playerId: Option<string>, viewerId: Option<string>, cardIds: seq<string>)
    | RevealedHand(playerId: Option<string>, expiresAfterTurn: Option<nat>)
    | KnownHandCards(playerId: Option<string>, viewerId: Option<string>, cardIds: seq<string>)
    | ObservedCardsNote(viewerId: Option<string>, note: string)
    | OtherModifier(text: string)

  datatype Player = Player(
    id: string, hasLost: bool, library: seq<Card>, hand: seq<Card>, sideboard: seq<Card>, battlefield: seq<Card>,
        rest: string)

  /** A decision: what it is, whose it is, and the cards it lists, if any. */
  datatype Decision = Decision(sideboarding: bool, playerId: string, cardIds: seq<string>, rest: string)

  datatype Event = Event(cardInstanceId: Option<string>, rest: string)

  datatype View = View(
    players: seq<Player>, modifiers: seq<Modifier>, events: seq<Event>, turn: nat, decision: Option<Decision>,
        rest: string)

  datatype Zone = Library | Hand | Sideboard

  function Cards(p: Player, zone: Zone): seq<Card>
  {
    match zone
    case Library => p.library
    case Hand => p.hand
    case Sideboard => p.sideboard
  }

  // ---------------------------------------------------------------- blank cards

  const KNOWN_TO_VIEWER := "knownToViewer"
  const BLANK := Face("Hidden card", "", [], None, false, false, 0, 0, 0, map[], map[], None, None)

  function ZoneName(zone: Zone): string
  {
    match zone
    case Library => "library"
    case Hand => "hand"
    case Sideboard => "sideboard"
  }

  function HiddenId(zone: Zone, owner: string, index: nat): string
  {
    "hidden:" + ZoneName(zone) + ":" + owner + ":" + Digits(index)
  }

  ghost predicate IsHiddenForm(id: string)
  {
    exists zone, owner: string, index: nat :: id == HiddenId(zone, owner, index)
  }

  /** `hidden_card`. */
  function Hidden(card: Card, zone: Zone, index: nat): Card
  {
    Card(HiddenId(zone, card.owner, index), card.owner, card.controller, BLANK)
  }

  function Known(card: Card): Card
  {
    card.(face := card.face.(flags := card.face.flags[KNOWN_TO_VIEWER := true]))
  }

  /** Blanks of different places have different ids, whatever the owners' names. */
  lemma HiddenIdIsFaithful(z: Zone, a: string, m: nat, w: Zone, b: string, n: nat)
    requires HiddenId(z, a, m) == HiddenId(w, b, n)
    ensures z == w && a == b && m == n
  {
    var x, y := "hidden:" + ZoneName(z) + ":" + a, "hidden:" + ZoneName(w) + ":" + b;
    TaggedNumberFaithful(x, m, y, n);
    assert x[7] == ZoneName(z)[0] && y[7] == ZoneName(w)[0];
    assert z == w;
    var k := |"hidden:" + ZoneName(z) + ":"|;
    assert a == x[k..] == y[k..] == b;
  }

  // ------------------------------------------------------- what a viewer may see

  predicate IsSideboarding(v: View, viewer: string)
  {
    v.decision.Some? && v.decision.value.sideboarding && v.decision.value.playerId == viewer
  }

  function DecisionCards(v: View, viewer: string): seq<string>
  {
    if v.decision.Some? && v.decision.value.playerId == viewer then v.decision.value.cardIds else []
  }

  /** Some player still in the game controls a permanent revealing this one's hand. */
  predicate ContinuouslyRevealed(v: View, player: Player)
  {
    && (exists q | q in v.players :: !q.hasLost && q.id == player.id)
    && exists s | 0 <= s < |v.players| ::
         && !v.players[s].hasLost && v.players[s].id != player.id
         && exists c | c in v.players[s].battlefield ::
              c.controller == v.players[s].id && RevealsOpponentsHands in c.face.rules
  }

  predicate HandIsRevealed(v: View, player: Player)
  {
    ContinuouslyRevealed(v, player) || exists m | m in v.modifiers ::
      m.RevealedHand? && m.playerId == Some(player.id) && (m.expiresAfterTurn.None?
                                                           || m.expiresAfterTurn.value >= v.turn)
  }

  predicate KnownInLibrary(v: View, viewer: string, player: Player, id: string)
  {
    exists m | m in v.modifiers ::
      m.KnownLibraryCards? && m.playerId == Some(player.id) && m.viewerId == Some(viewer) && id in m.cardIds
  }

  predicate KnownInHand(v: View, viewer: string, player: Player, id: string)
  {
    exists m | m in v.modifiers ::
      m.KnownHandCards? && m.playerId == Some(player.id) && (m.viewerId.None? || m.viewerId == Some(viewer))
          && id in m.cardIds
  }

  datatype Showing = Untouched | Marked | Blanked

  /** How the viewer is shown the card at a place. */
  function ShowingOf(v: View, viewer: string, player: Player, zone: Zone, i: nat): Showing
    requires i < |Cards(player, zone)|
  {
    var id := Cards(player, zone)[i].instanceId;
    match zone
    case Library =>
      if IsSideboarding(v, viewer) && player.id == viewer then Untouched
      else if id in DecisionCards(v, viewer) then Marked
      else if i == |player.library| - 1 && KnownInLibrary(v, viewer, player, id) then Marked
      else Blanked
    case Hand =>
      if player.id == viewer then Untouched
      else if HandIsRevealed(v, player) || KnownInHand(v, viewer, player, id)
          || id in DecisionCards(v, viewer) then Marked
      else Blanked
    case Sideboard =>
      if player.id == viewer then Untouched else Blanked
  }

  // ----------------------------------------------------------------- projection

  function ShownCard(v: View, viewer: string, player: Player, zone: Zone, i: nat): Card
    requires i < |Cards(player, zone)|
  {
    var card := Cards(player, zone)[i];
    match ShowingOf(v, viewer, player, zone, i)
    case Untouched => card
    case Marked => Known(card)
    case Blanked => Hidden(card, zone, i)
  }

  /** The first n cards of a zone as shown. */
  function ShownCards(v: View, viewer: string, player: Player, zone: Zone, n: nat): (r: seq<Card>)
    requires n <= |Cards(player, zone)|
    ensures |r| == n && forall i | 0 <= i < n :: r[i] == ShownCard(v, viewer, player, zone, i)
  {
    seq(n, i requires 0 <= i < n => ShownCard(v, viewer, player, zone, i))
  }

  function ShownZone(v: View, viewer: string, player: Player, zone: Zone): seq<Card>
  {
    ShownCards(v, viewer, player, zone, |Cards(player, zone)|)
  }

  function ShownPlayer(v: View, viewer: string, player: Player): Player
  {
    player.(library := ShownZone(v, viewer, player, Library), hand := ShownZone(v, viewer, player, Hand),
            sideboard := ShownZone(v, viewer, player, Sideboard))
  }

  predicate BlankedAt(v: View, viewer: string, p: nat, zone: Zone, i: nat, id: string)
  {
    && p < |v.players| && i < |Cards(v.players[p], zone)|
    && ShowingOf(v, viewer, v.players[p], zone, i).Blanked? && Cards(v.players[p], zone)[i].instanceId == id
  }

  ghost predicate IsBlanked(v: View, viewer: string, id: string)
  {
    exists p: nat, zone, i: nat :: BlankedAt(v, viewer, p, zone, i, id)
  }

  /** Already by one of the first n players. */
  ghost predicate IsBlankedBelow(v: View, viewer: string, n: nat, id: string)
  {
    exists p: nat, zone, i: nat | p < n :: BlankedAt(v, viewer, p, zone, i, id)
  }

  ghost function ShownEvent(v: View, viewer: string, e: Event): Event
  {
    if e.cardInstanceId.Some? && IsBlanked(v, viewer, e.cardInstanceId.value) then e.(cardInstanceId := None) else e
  }

  function ShownDecision(v: View, viewer: string): Option<Decision>
  {
    if v.decision.Some? && v.decision.value.playerId != viewer then None else v.decision
  }

  predicate ForViewer(m: Modifier, viewer: string)
  {
    m.ObservedCardsNote? ==> m.viewerId == Some(viewer)
  }

  function ShownModifiers(s: seq<Modifier>, viewer: string): seq<Modifier>
  {
    if s == [] then []
    else if ForViewer(s[|s| - 1], viewer) then ShownModifiers(s[..|s| - 1], viewer) + [s[|s| - 1]]
    else ShownModifiers(s[..|s| - 1], viewer)
  }

  /** The view as the viewer is shown it. */
  ghost function Projected(v: View, viewer: string): View
  {
    View(seq(|v.players|, p requires 0 <= p < |v.players| => ShownPlayer(v, viewer, v.players[p])),
         ShownModifiers(v.modifiers, viewer),
         seq(|v.events|, e requires 0 <= e < |v.events| => ShownEvent(v, viewer, v.events[e])),
         v.turn, ShownDecision(v, viewer), v.rest)
  }

  // ------------------------------------------------- project_session_view itself

  /** One zone, overwritten card by card; the ids of blanked cards are collected. */
  method ProjectZone(v: View, viewer: string, p: nat, zone: Zone) returns (cards: seq<Card>, blanked: set<string>)
    requires p < |v.players|
    ensures cards == ShownZone(v, viewer, v.players[p], zone)
    ensures forall id :: id in blanked <==> exists i: nat :: BlankedAt(v, viewer, p, zone, i, id)
  {
    var player := v.players[p];
    cards, blanked := Cards(player, zone), {};
    var index := 0;
    while index < |cards|
      invariant 0 <= index <= |cards| == |Cards(player, zone)|
      invariant forall i | 0 <= i < index :: cards[i] == ShownCard(v, viewer, player, zone, i)
      invariant forall i | index <= i < |cards| :: cards[i] == Cards(player, zone)[i]
      invariant forall id :: id in blanked <==> exists i: nat | i < index :: BlankedAt(v, viewer, p, zone, i, id)
    {
      var card := cards[index];
      ghost var before := blanked;
      match ShowingOf(v, viewer, player, zone, index) {
        case Untouched =>
        case Marked =>
          cards := cards[index := Known(card)];
        case Blanked =>
          blanked := blanked + {card.instanceId};
          cards := cards[index := Hidden(card, zone, index)];
          assert BlankedAt(v, viewer, p, zone, index, card.instanceId);
      }
      index := index + 1;
    }
  }

  method ProjectPlayer(v: View, viewer: string, p: nat) returns (player: Player, blanked: set<string>)
    requires p < |v.players|
    ensures player == ShownPlayer(v, viewer, v.players[p])
    ensures forall id :: id in blanked <==> exists zone, i: nat :: BlankedAt(v, viewer, p, zone, i, id)
  {
    var library, fromLibrary := ProjectZone(v, viewer, p, Library);
    var hand, fromHand := ProjectZone(v, viewer, p, Hand);
    var sideboard, fromSideboard := ProjectZone(v, viewer, p, Sideboard);
    blanked := fromLibrary + fromHand + fromSideboard;
    player := v.players[p].(library := library, hand := hand, sideboard := sideboard);
    forall id
      ensures id in blanked <==> exists zone, i: nat :: BlankedAt(v, viewer, p, zone, i, id)
    {
      if zone, i: nat :| BlankedAt(v, viewer, p, zone, i, id) {
        match zone {
          case Library => assert id in fromLibrary;
          case Hand => assert id in fromHand;
          case Sideboard => assert id in fromSideboard;
        }
      }
    }
  }

  /** The players, zone after zone and player after player. */
  method ProjectPlayers(v: View, viewer: string) returns (players: seq<Player>, blanked: set<string>)
    ensures |players| == |v.players| && forall p | 0 <= p < |players| ::
            players[p] == ShownPlayer(v, viewer, v.players[p])
    ensures forall id :: id in blanked <==> IsBlanked(v, viewer, id)
  {
    players, blanked := v.players, {};
    var p := 0;
    while p < |players|
      invariant 0 <= p <= |v.players| == |players|
      invariant forall q | 0 <= q < p :: players[q] == ShownPlayer(v, viewer, v.players[q])
      invariant forall q | p <= q < |v.players| :: players[q] == v.players[q]
      invariant forall id :: id in blanked <==> IsBlankedBelow(v, viewer, p, id)
    {
      var player, more := ProjectPlayer(v, viewer, p);
      blanked := blanked + more;
      players := players[p := player];
      p := p + 1;
    }
    assert forall id :: IsBlankedBelow(v, viewer, |v.players|, id) <==> IsBlanked(v, viewer, id);
  }

  /** The projection: the players, then the events, the decision, the modifiers. */
  method ProjectSessionView(v: View, viewer: string) returns (r: View)
    ensures r == Projected(v, viewer)
  {
    var players, blanked := ProjectPlayers(v, viewer);
    var events := v.events;
    var e := 0;
    while e < |events|
      invariant 0 <= e <= |v.events| == |events|
      invariant forall i | 0 <= i < e :: events[i] == ShownEvent(v, viewer, v.events[i])
      invariant forall i | e <= i < |v.events| :: events[i] == v.events[i]
    {
      var id := events[e].cardInstanceId;
      if id.Some? && id.value in blanked {
        events := events[e := events[e].(cardInstanceId := None)];
      }
      e := e + 1;
    }
    r := View(players, ShownModifiers(v.modifiers, viewer), events, v.turn, ShownDecision(v, viewer), v.rest);
    assert r.players == Projected(v, viewer).players && r.events == Projected(v, viewer).events;
  }

  // ---------------------------------------------- nothing flows from blanked cards

  lemma {:induction false} ShownModifiersKeep(s: seq<Modifier>, viewer: string, m: Modifier)
    ensures m in ShownModifiers(s, viewer) <==> m in s && ForViewer(m, viewer)
  {
    if s != [] {
      ShownModifiersKeep(s[..|s| - 1], viewer, m);
      assert m in s <==> m in s[..|s| - 1] || m == s[|s| - 1];
    }
  }

  predicate SomeoneElses(d: Option<Decision>, viewer: string)
  {
    d.None? || d.value.playerId != viewer
  }

  /** The modifiers that say what this viewer may see. A list of known cards that
      is addressed to somebody else is not one of them. */
  predicate Matters(m: Modifier, viewer: string)
  {
    || m.RevealedHand?
    || (m.KnownLibraryCards? && m.viewerId == Some(viewer))
    || (m.KnownHandCards? && (m.viewerId.None? || m.viewerId == Some(viewer)))
  }

  /** The views differ at most in the cards of libraries, hands and sideboards, in
      decisions put to others than the viewer, and in modifiers that do not say what
      the viewer may see. */
  ghost predicate AlikeAround(v: View, w: View, viewer: string)
  {
    && |v.players| == |w.players| && v.events == w.events && v.turn == w.turn && v.rest == w.rest
    && (forall m: Modifier | Matters(m, viewer) :: m in v.modifiers <==> m in w.modifiers)
    && (v.decision == w.decision || (SomeoneElses(v.decision, viewer) && SomeoneElses(w.decision, viewer)))
    && forall p | 0 <= p < |v.players| ::
         var a, b := v.players[p], w.players[p];
         a.id == b.id && a.hasLost == b.hasLost && a.battlefield == b.battlefield && a.rest == b.rest
  }

  /** The same, with the same modifiers except for others' notes. */
  ghost predicate AlikeOutside(v: View, w: View, viewer: string)
  {
    AlikeAround(v, w, viewer) && ShownModifiers(v.modifiers, viewer) == ShownModifiers(w.modifiers, viewer)
  }

  /** Place by place: what the viewer is shown is the same card; what is blanked in
      one view is blanked in the other, whichever of the owner's cards it is. */
  ghost predicate AlikeAt(v: View, w: View, viewer: string, p: nat, zone: Zone, i: nat)
    requires p < |v.players| == |w.players| && i < |Cards(v.players[p], zone)| == |Cards(w.players[p], zone)|
  {
    var c, d := Cards(v.players[p], zone)[i], Cards(w.players[p], zone)[i];
    if ShowingOf(v, viewer, v.players[p], zone, i).Blanked? then
      ShowingOf(w, viewer, w.players[p], zone, i).Blanked? && c.owner == d.owner && c.controller == d.controller
    else c == d
  }

  ghost predicate AlikeIn(v: View, w: View, viewer: string, p: nat, zone: Zone)
    requires p < |v.players| == |w.players|
  {
    && |Cards(v.players[p], zone)| == |Cards(w.players[p], zone)|
    && forall i | 0 <= i < |Cards(v.players[p], zone)| :: AlikeAt(v, w, viewer, p, zone, i)
  }

  /** Nothing but secrets and others' modifiers differs: the cards behind blanks may
      be any, so long as the same ids are blanked. */
  ghost predicate AlikeButForModifiers(v: View, w: View, viewer: string)
  {
    && AlikeAround(v, w, viewer)
    && (forall p, zone | 0 <= p < |v.players| :: AlikeIn(v, w, viewer, p, zone))
    && forall id :: IsBlanked(v, viewer, id) <==> IsBlanked(w, viewer, id)
  }

  /** The views differ in secrets at most. */
  ghost predicate DifferInSecrets(v: View, w: View, viewer: string)
  {
    && AlikeButForModifiers(v, w, viewer)
    && ShownModifiers(v.modifiers, viewer) == ShownModifiers(w.modifiers, viewer)
  }

  /** What may be seen does not itself depend on what may not: a card with the same
      id at the same place is shown in the same way. */
  lemma ShownAlike(v: View, w: View, viewer: string, p: nat, zone: Zone, i: nat)
    requires AlikeAround(v, w, viewer) && p < |v.players|
    requires i < |Cards(v.players[p], zone)| == |Cards(w.players[p], zone)|
    requires Cards(v.players[p], zone)[i].instanceId == Cards(w.players[p], zone)[i].instanceId
    ensures ShowingOf(v, viewer, v.players[p], zone, i) == ShowingOf(w, viewer, w.players[p], zone, i)
  {
    assert DecisionCards(v, viewer) == DecisionCards(w, viewer)
           && IsSideboarding(v, viewer) == IsSideboarding(w, viewer);
  }

  lemma ZoneShownAlike(v: View, w: View, viewer: string, p: nat, zone: Zone)
    requires AlikeAround(v, w, viewer) && p < |v.players| && AlikeIn(v, w, viewer, p, zone)
    ensures ShownZone(v, viewer, v.players[p], zone) == ShownZone(w, viewer, w.players[p], zone)
  {
    forall i | 0 <= i < |Cards(v.players[p], zone)|
      ensures ShownCard(v, viewer, v.players[p], zone, i) == ShownCard(w, viewer, w.players[p], zone, i)
    {
      assert AlikeAt(v, w, viewer, p, zone, i);
      if !ShowingOf(v, viewer, v.players[p], zone, i).Blanked? {
        ShownAlike(v, w, viewer, p, zone, i);
      }
    }
  }

  /** Noninterference: whatever secrets and others' modifiers are, the viewer is
      shown the same but for those modifiers, which pass the projection unless they
      are notes. */
  lemma OnlyModifiersFlow(v: View, w: View, viewer: string)
    requires AlikeButForModifiers(v, w, viewer)
    ensures Projected(w, viewer) == Projected(v, viewer).(modifiers := ShownModifiers(w.modifiers, viewer))
  {
    var x, y := Projected(v, viewer), Projected(w, viewer);
    forall p | 0 <= p < |v.players|
      ensures x.players[p] == y.players[p]
    {
      assert AlikeIn(v, w, viewer, p, Library) && AlikeIn(v, w, viewer, p, Hand) && AlikeIn(v, w, viewer, p, Sideboard);
      ZoneShownAlike(v, w, viewer, p, Library);
      ZoneShownAlike(v, w, viewer, p, Hand);
      ZoneShownAlike(v, w, viewer, p, Sideboard);
    }
    assert x.players == y.players;
    assert x.events == y.events;
  }

  /** In particular, two views that differ only in secrets are shown alike. */
  lemma SecretsDoNotFlow(v: View, w: View, viewer: string)
    requires DifferInSecrets(v, w, viewer)
    ensures Projected(v, viewer) == Projected(w, viewer)
  {
    OnlyModifiersFlow(v, w, viewer);
  }

  // ------------------------------------------------ lists addressed to others

  /** A list of known cards that is meant for another viewer. */
  predicate ListForOthers(m: Modifier, viewer: string)
  {
    (m.KnownLibraryCards? || m.KnownHandCards?) && !Matters(m, viewer)
  }

  /** Modifiers that differ, place by place, in such lists only. */
  ghost predicate DifferInLists(a: seq<Modifier>, b: seq<Modifier>, viewer: string)
  {
    && |a| == |b|
    && forall i | 0 <= i < |a| :: a[i] == b[i] || (ListForOthers(a[i], viewer) && ListForOthers(b[i], viewer))
  }

  lemma {:induction false} ListsAreShown(a: seq<Modifier>, b: seq<Modifier>, viewer: string)
    requires DifferInLists(a, b, viewer)
    ensures ShownModifiers(a, viewer) == ShownModifiers(b, viewer) <==> a == b
    ensures |ShownModifiers(a, viewer)| == |ShownModifiers(b, viewer)|
  {
    if a != [] {
      var x, y := a[..|a| - 1], b[..|b| - 1];
      ListsAreShown(x, y, viewer);
      assert a == x + [a[|a| - 1]] && b == y + [b[|b| - 1]];
      assert ForViewer(a[|a| - 1], viewer) == ForViewer(b[|b| - 1], viewer);
      if ForViewer(a[|a| - 1], viewer) && ShownModifiers(a, viewer) == ShownModifiers(b, viewer) {
        assert ShownModifiers(a, viewer)[..|ShownModifiers(x, viewer)|] == ShownModifiers(x, viewer);
        assert ShownModifiers(b, viewer)[..|ShownModifiers(y, viewer)|] == ShownModifiers(y, viewer);
        assert ShownModifiers(a, viewer)[|ShownModifiers(x, viewer)|] == a[|a| - 1];
        assert ShownModifiers(b, viewer)[|ShownModifiers(y, viewer)|] == b[|b| - 1];
      }
    }
  }

  /** Lists addressed to others decide nothing of what the viewer is shown, and are
      themselves shown: views that differ in them alone are shown alike exactly
      when the lists are equal. */
  lemma OthersListsAreShownIff(v: View, modifiers: seq<Modifier>, viewer: string)
    requires DifferInLists(v.modifiers, modifiers, viewer)
    ensures var w := v.(modifiers := modifiers);
            && Projected(w, viewer) == Projected(v, viewer).(modifiers := ShownModifiers(modifiers, viewer))
            && (Projected(w, viewer) == Projected(v, viewer) <==> modifiers == v.modifiers)
  {
    var w := v.(modifiers := modifiers);
    forall m: Modifier | Matters(m, viewer)
      ensures m in v.modifiers <==> m in modifiers
    {
      if i :| 0 <= i < |v.modifiers| && v.modifiers[i] == m {
        assert modifiers[i] == m;
      }
      if i :| 0 <= i < |modifiers| && modifiers[i] == m {
        assert v.modifiers[i] == m;
      }
    }
    forall p, zone, i | 0 <= p < |v.players| && 0 <= i < |Cards(v.players[p], zone)|
      ensures ShowingOf(v, viewer, v.players[p], zone, i) == ShowingOf(w, viewer, w.players[p], zone, i)
    {
      ShownAlike(v, w, viewer, p, zone, i);
    }
    forall p: nat, zone, i: nat, id
      ensures BlankedAt(v, viewer, p, zone, i, id) <==> BlankedAt(w, viewer, p, zone, i, id)
    {
    }
    forall p, zone | 0 <= p < |v.players|
      ensures AlikeIn(v, w, viewer, p, zone)
    {
    }
    OnlyModifiersFlow(v, w, viewer);
    ListsAreShown(v.modifiers, modifiers, viewer);
  }

  const PLAIN := Face("Forest", "", [], None, false, false, 0, 0, 0, map[], map[], None, None)
  const LOOKED_UP := View(
    [Player("a", false, [Card("forest-1", "a", "a", PLAIN)], [], [], [], ""), Player("b", false, [], [], [], [], "")],
    [KnownLibraryCards(Some("a"), Some("a"), ["forest-1"])], [], 1, None, "")

  /** So what one player has been shown of a library names, to the other, a card
      that the other's view blanks. */
  lemma ListNamesBlankedCard()
    ensures var shown := Projected(LOOKED_UP, "b");
            && shown.players[0].library == [Hidden(LOOKED_UP.players[0].library[0], Library, 0)]
            && IsBlanked(LOOKED_UP, "b", "forest-1")
            && exists m | m in shown.modifiers :: m.KnownLibraryCards? && "forest-1" in m.cardIds
  {
    var m := LOOKED_UP.modifiers[0];
    assert m in LOOKED_UP.modifiers && "forest-1" in m.cardIds;
    ShownModifiersKeep(LOOKED_UP.modifiers, "b", m);
    assert forall n | n in LOOKED_UP.modifiers :: n == m;
    assert BlankedAt(LOOKED_UP, "b", 0, Library, 0, "forest-1");
  }

  /** Two cards that are the same physical card of the same players. */
  predicate SameCard(c: Card, d: Card)
  {
    c.instanceId == d.instanceId && c.owner == d.owner && c.controller == d.controller
  }

  /** Whatever is on the face of a card that is not shown stays secret. */
  lemma FacesAreSecret(v: View, w: View, viewer: string)
    requires AlikeOutside(v, w, viewer)
    requires forall p, zone | 0 <= p < |v.players| :: |Cards(v.players[p], zone)| == |Cards(w.players[p], zone)|
    requires forall p, zone, i | 0 <= p < |v.players| && 0 <= i < |Cards(v.players[p], zone)| ::
               var c, d := Cards(v.players[p], zone)[i], Cards(w.players[p], zone)[i];
               SameCard(c, d) && (!ShowingOf(v, viewer, v.players[p], zone, i).Blanked? ==> c == d)
    ensures Projected(v, viewer) == Projected(w, viewer)
  {
    forall p, zone, i | 0 <= p < |v.players| && 0 <= i < |Cards(v.players[p], zone)|
      ensures ShowingOf(v, viewer, v.players[p], zone, i) == ShowingOf(w, viewer, w.players[p], zone, i)
    {
      assert SameCard(Cards(v.players[p], zone)[i], Cards(w.players[p], zone)[i]);
      ShownAlike(v, w, viewer, p, zone, i);
    }
    forall p: nat, zone, i: nat, id
      ensures BlankedAt(v, viewer, p, zone, i, id) <==> BlankedAt(w, viewer, p, zone, i, id)
    {
      if p < |v.players| && i < |Cards(v.players[p], zone)| {
        assert SameCard(Cards(v.players[p], zone)[i], Cards(w.players[p], zone)[i]);
      }
    }
    forall p, zone | 0 <= p < |v.players|
      ensures AlikeIn(v, w, viewer, p, zone)
    {
      forall i | 0 <= i < |Cards(v.players[p], zone)|
        ensures AlikeAt(v, w, viewer, p, zone, i)
      {
        assert SameCard(Cards(v.players[p], zone)[i], Cards(w.players[p], zone)[i]);
      }
    }
    SecretsDoNotFlow(v, w, viewer);
  }

  // ---------------------------------------------------------- a library's order

  /** The viewer has been told nothing of this player's library. */
  ghost predicate LibraryUnknown(v: View, viewer: string, player: Player)
  {
    && !(IsSideboarding(v, viewer) && player.id == viewer)
    && forall c | c in player.library ::
         && c.instanceId !in DecisionCards(v, viewer) && !KnownInLibrary(v, viewer, player, c.instanceId)
         && c.owner == player.id && c.controller == player.id
  }

  function Shuffled(v: View, p: nat, library: seq<Card>): View
    requires p < |v.players|
  {
    v.(players := v.players[p := v.players[p].(library := library)])
  }

  lemma MembersOfShuffle(a: seq<Card>, b: seq<Card>, i: nat) returns (j: nat)
    requires multiset(a) == multiset(b) && i < |a|
    ensures j < |b| && b[j] == a[i]
  {
    assert a[i] in multiset(a);
    assert a[i] in b;
    j :| 0 <= j < |b| && b[j] == a[i];
  }

  /** Every id blanked before the shuffle is blanked after it. */
  lemma ShuffleKeepsBlanked(v: View, viewer: string, p: nat, library: seq<Card>, id: string)
    requires p < |v.players| && multiset(library) == multiset(v.players[p].library)
             && |library| == |v.players[p].library|
    requires LibraryUnknown(Shuffled(v, p, library), viewer, Shuffled(v, p, library).players[p])
    requires AlikeOutside(v, Shuffled(v, p, library), viewer) && IsBlanked(v, viewer, id)
    ensures IsBlanked(Shuffled(v, p, library), viewer, id)
  {
    var w := Shuffled(v, p, library);
    var q: nat, zone, i: nat :| BlankedAt(v, viewer, q, zone, i, id);
    if q == p && zone == Library {
      var j := MembersOfShuffle(v.players[p].library, library, i);
      assert library[j] in w.players[p].library;
      assert BlankedAt(w, viewer, p, Library, j, id);
    } else {
      assert Cards(w.players[q], zone) == Cards(v.players[q], zone);
      ShownAlike(v, w, viewer, q, zone, i);
      assert BlankedAt(w, viewer, q, zone, i, id);
    }
  }

  lemma ShuffleStaysUnknown(v: View, viewer: string, p: nat, library: seq<Card>)
    requires p < |v.players| && multiset(library) == multiset(v.players[p].library)
    requires LibraryUnknown(v, viewer, v.players[p])
    ensures var w := Shuffled(v, p, library);
            AlikeOutside(v, w, viewer) && AlikeOutside(w, v, viewer) && LibraryUnknown(w, viewer, w.players[p])
  {
    var w := Shuffled(v, p, library);
    forall c | c in library
      ensures c in v.players[p].library && (KnownInLibrary(w, viewer, w.players[p], c.instanceId)
              <==> KnownInLibrary(v, viewer, v.players[p], c.instanceId))
    {
      assert c in multiset(library);
    }
  }

  /** A library of which the viewer has been told nothing may lie in any order: the
      viewer is shown the same. */
  lemma LibraryOrderIsSecret(v: View, viewer: string, p: nat, library: seq<Card>)
    requires p < |v.players| && multiset(library) == multiset(v.players[p].library)
    requires LibraryUnknown(v, viewer, v.players[p])
    ensures Projected(v, viewer) == Projected(Shuffled(v, p, library), viewer)
  {
    var w := Shuffled(v, p, library);
    ShuffleStaysUnknown(v, viewer, p, library);
    assert |library| == |multiset(library)| == |v.players[p].library|;
    assert Shuffled(w, p, v.players[p].library) == v;
    forall id
      ensures IsBlanked(v, viewer, id) <==> IsBlanked(w, viewer, id)
    {
      if IsBlanked(v, viewer, id) {
        ShuffleKeepsBlanked(v, viewer, p, library, id);
      }
      if IsBlanked(w, viewer, id) {
        ShuffleKeepsBlanked(w, viewer, p, v.players[p].library, id);
      }
    }
    forall q, zone | 0 <= q < |v.players|
      ensures AlikeIn(v, w, viewer, q, zone)
    {
      forall i | 0 <= i < |Cards(v.players[q], zone)|
        ensures AlikeAt(v, w, viewer, q, zone, i)
      {
        if q == p && zone == Library {
          assert v.players[p].library[i] in v.players[p].library && library[i] in w.players[p].library;
        } else {
          assert Cards(w.players[q], zone) == Cards(v.players[q], zone);
          ShownAlike(v, w, viewer, q, zone, i);
        }
      }
    }
    SecretsDoNotFlow(v, w, viewer);
  }

  // ---------------------------------------------------- what must not be hidden

  /** The same card as before, or with the mark that it is known. */
  predicate Seen(before: Card, after: Card)
  {
    after == before || after == Known(before)
  }

  /** The viewer's own hand and sideboard and every battlefield are shown as they
      are; and so are, marked at most, the cards in libraries and hands that a
      decision of the viewer's asks about, and all cards of a revealed hand. */
  lemma NothingNeededIsHidden(v: View, viewer: string, p: nat)
    requires p < |v.players|
    ensures var a, b := v.players[p], Projected(v, viewer).players[p];
            && b.battlefield == a.battlefield && b.id == a.id && b.rest == a.rest
            && (a.id == viewer ==> b.hand == a.hand && b.sideboard == a.sideboard)
            && (a.id == viewer && IsSideboarding(v, viewer) ==> b.library == a.library)
            && (forall zone, i | zone != Sideboard && 0 <= i < |Cards(a, zone)|
                && Cards(a, zone)[i].instanceId in DecisionCards(v, viewer) ::
                  |Cards(b, zone)| == |Cards(a, zone)| && Seen(Cards(a, zone)[i], Cards(b, zone)[i]))
            && (HandIsRevealed(v, a) ==> |b.hand| == |a.hand| && forall i | 0 <= i < |a.hand| ::
                Seen(a.hand[i], b.hand[i]))
  {
  }

  // ----------------------------------------------------------------- idempotence

  /** No list of card ids, and no event, names an id of the blanks' form. */
  ghost predicate NamesNoBlank(v: View, viewer: string)
  {
    && (forall id | id in DecisionCards(v, viewer) :: !IsHiddenForm(id))
    && (forall m | m in v.modifiers && (m.KnownLibraryCards? || m.KnownHandCards?) ::
          forall id | id in m.cardIds :: !IsHiddenForm(id))
    && (forall e | e in v.events && e.cardInstanceId.Some? :: !IsHiddenForm(e.cardInstanceId.value))
  }

  lemma {:induction false} ShownModifiersTwice(s: seq<Modifier>, viewer: string)
    ensures ShownModifiers(ShownModifiers(s, viewer), viewer) == ShownModifiers(s, viewer)
  {
    if s != [] {
      ShownModifiersTwice(s[..|s| - 1], viewer);
      var r := ShownModifiers(s, viewer);
      if ForViewer(s[|s| - 1], viewer) {
        assert r[..|r| - 1] == ShownModifiers(s[..|s| - 1], viewer);
      }
    }
  }

  lemma SameModifierAgain(v: View, viewer: string, m: Modifier)
    requires !m.ObservedCardsNote?
    ensures m in Projected(v, viewer).modifiers <==> m in v.modifiers
  {
    ShownModifiersKeep(v.modifiers, viewer, m);
  }

  lemma RevealedAgain(v: View, viewer: string, p: nat)
    requires p < |v.players|
    ensures HandIsRevealed(Projected(v, viewer), Projected(v, viewer).players[p]) <==> HandIsRevealed(v, v.players[p])
  {
    var w := Projected(v, viewer);
    forall s | 0 <= s < |v.players|
      ensures w.players[s].id == v.players[s].id && w.players[s].hasLost == v.players[s].hasLost
      ensures w.players[s].battlefield == v.players[s].battlefield
      ensures w.players[s] in w.players && v.players[s] in v.players
    {
    }
    forall m: Modifier | !m.ObservedCardsNote?
      ensures m in w.modifiers <==> m in v.modifiers
    {
      SameModifierAgain(v, viewer, m);
    }
    assert ContinuouslyRevealed(w, w.players[p]) <==> ContinuouslyRevealed(v, v.players[p]);
  }

  lemma KnownAgain(v: View, viewer: string, p: nat, id: string)
    requires p < |v.players|
    ensures var w := Projected(v, viewer);
            && (KnownInLibrary(w, viewer, w.players[p], id) <==> KnownInLibrary(v, viewer, v.players[p], id))
            && (KnownInHand(w, viewer, w.players[p], id) <==> KnownInHand(v, viewer, v.players[p], id))
  {
    forall m: Modifier | !m.ObservedCardsNote?
      ensures m in Projected(v, viewer).modifiers <==> m in v.modifiers
    {
      SameModifierAgain(v, viewer, m);
    }
  }

  lemma ShownAgain(v: View, viewer: string, p: nat, zone: Zone, i: nat)
    requires NamesNoBlank(v, viewer) && p < |v.players| && i < |Cards(v.players[p], zone)|
    ensures var w := Projected(v, viewer);
            && |Cards(w.players[p], zone)| == |Cards(v.players[p], zone)|
            && ShowingOf(w, viewer, w.players[p], zone, i) == ShowingOf(v, viewer, v.players[p], zone, i)
            && ShownCard(w, viewer, w.players[p], zone, i) == Cards(w.players[p], zone)[i]
  {
    var w := Projected(v, viewer);
    var c, d := Cards(v.players[p], zone)[i], Cards(w.players[p], zone)[i];
    assert d == ShownCard(v, viewer, v.players[p], zone, i);
    assert DecisionCards(w, viewer) == DecisionCards(v, viewer)
           && IsSideboarding(w, viewer) == IsSideboarding(v, viewer);
    RevealedAgain(v, viewer, p);
    KnownAgain(v, viewer, p, d.instanceId);
    if ShowingOf(v, viewer, v.players[p], zone, i).Blanked? {
      assert d.instanceId == HiddenId(zone, c.owner, i);
      assert IsHiddenForm(d.instanceId);
    } else if ShowingOf(v, viewer, v.players[p], zone, i).Marked? {
      assert Known(Known(c)) == Known(c);
    }
  }

  lemma ZoneShownAgain(v: View, viewer: string, p: nat, zone: Zone)
    requires NamesNoBlank(v, viewer) && p < |v.players|
    ensures ShownZone(Projected(v, viewer), viewer, Projected(v, viewer).players[p], zone)
            == Cards(Projected(v, viewer).players[p], zone)
  {
    forall i | 0 <= i < |Cards(v.players[p], zone)|
      ensures var w := Projected(v, viewer); ShownCard(w, viewer, w.players[p], zone, i) == Cards(w.players[p], zone)[i]
    {
      ShownAgain(v, viewer, p, zone, i);
    }
  }

  lemma BlanksHaveHiddenForm(v: View, viewer: string, id: string)
    requires NamesNoBlank(v, viewer) && IsBlanked(Projected(v, viewer), viewer, id)
    ensures IsHiddenForm(id)
  {
    var w := Projected(v, viewer);
    var p: nat, zone, i: nat :| BlankedAt(w, viewer, p, zone, i, id);
    ShownAgain(v, viewer, p, zone, i);
    assert id == HiddenId(zone, Cards(v.players[p], zone)[i].owner, i);
  }

  /** Projecting a projection changes nothing. */
  lemma ProjectionIsIdempotent(v: View, viewer: string)
    requires NamesNoBlank(v, viewer)
    ensures Projected(Projected(v, viewer), viewer) == Projected(v, viewer)
  {
    var w := Projected(v, viewer);
    var x := Projected(w, viewer);
    forall p | 0 <= p < |v.players|
      ensures x.players[p] == w.players[p]
    {
      ZoneShownAgain(v, viewer, p, Library);
      ZoneShownAgain(v, viewer, p, Hand);
      ZoneShownAgain(v, viewer, p, Sideboard);
    }
    assert x.players == w.players;
    forall e | 0 <= e < |v.events|
      ensures x.events[e] == w.events[e]
    {
      if w.events[e].cardInstanceId.Some? {
        var id := w.events[e].cardInstanceId.value;
        assert v.events[e] in v.events;
        if IsBlanked(w, viewer, id) {
          BlanksHaveHiddenForm(v, viewer, id);
        }
      }
    }
    assert x.events == w.events;
    ShownModifiersTwice(v.modifiers, viewer);
  }

  /** In a view whose cards lie in their owners' zones, no two blanks share an id. */
  lemma BlanksAreDistinct(v: View, viewer: string, p: nat, zone: Zone, i: nat, q: nat, other: Zone, j: nat)
    requires forall a, b | 0 <= a < b < |v.players| :: v.players[a].id != v.players[b].id
    requires forall a, z, k | 0 <= a < |v.players| && 0 <= k < |Cards(v.players[a], z)| ::
             Cards(v.players[a], z)[k].owner == v.players[a].id
    requires p < |v.players| && i < |Cards(v.players[p], zone)| && ShowingOf(v, viewer, v.players[p], zone, i).Blanked?
    requires q < |v.players| && j < |Cards(v.players[q], other)|
             && ShowingOf(v, viewer, v.players[q], other, j).Blanked?
    requires (p, zone, i) != (q, other, j)
    ensures var w := Projected(v, viewer);
            && |Cards(w.players[p], zone)| == |Cards(v.players[p], zone)|
                && |Cards(w.players[q], other)| == |Cards(v.players[q], other)|
            && Cards(w.players[p], zone)[i].instanceId != Cards(w.players[q], other)[j].instanceId
  {
    var w := Projected(v, viewer);
    var a, b := Cards(v.players[p], zone)[i].owner, Cards(v.players[q], other)[j].owner;
    assert Cards(w.players[p], zone)[i].instanceId == HiddenId(zone, a, i);
    assert Cards(w.players[q], other)[j].instanceId == HiddenId(other, b, j);
    if HiddenId(zone, a, i) == HiddenId(other, b, j) {
      HiddenIdIsFaithful(zone, a, i, other, b, j);
      assert false;
    }
  }
}
