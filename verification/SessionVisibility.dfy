/** Which cards a player of a network game is not shown, said without the
    projection's own terms. */
module SessionVisibility {
  import opened Wrappers
  import opened Decimal
  import opened SessionViews

  /** What stands in the place of a card that is not shown. */
  function Blank(card: Card, zone: Zone, index: nat): Card
  {
    var name := match zone
      case Library => "library"
      case Hand => "hand"
      case Sideboard => "sideboard";
    Card("hidden:" + name + ":" + card.owner + ":" + Digits(index), card.owner, card.controller,
         Face("Hidden card", "", [], None, false, false, 0, 0, 0, map[], map[], None, None))
  }

  /** A card that is shown although others may not see it carries a mark. */
  function WithMark(card: Card): Card
  {
    card.(face := card.face.(flags := card.face.flags["knownToViewer" := true]))
  }

  predicate InGame(v: View, id: string)
  {
    exists q | q in v.players :: q.id == id && !q.hasLost
  }

  /** An opponent still in the game controls, on their own battlefield, a permanent
      by whose rule the hands of opponents are revealed. */
  predicate RuleReveals(v: View, player: Player)
  {
    && InGame(v, player.id)
    && exists s | 0 <= s < |v.players| && v.players[s].id != player.id && !v.players[s].hasLost ::
         exists c | c in v.players[s].battlefield ::
           RevealsOpponentsHands in c.face.rules && c.controller == v.players[s].id
  }

  /** The hand was revealed, for good or until a turn not yet over. */
  predicate EffectReveals(v: View, player: Player)
  {
    exists m | m in v.modifiers && m.RevealedHand? && m.playerId == Some(player.id) ::
      m.expiresAfterTurn.Some? ==> v.turn <= m.expiresAfterTurn.value
  }

  /** A list of known hand cards, meant for the viewer or for everybody, names it. */
  predicate ToldOfHand(v: View, viewer: string, player: Player, id: string)
  {
    exists m | m in v.modifiers && m.KnownHandCards? && id in m.cardIds ::
      m.playerId == Some(player.id) && (m.viewerId.Some? ==> m.viewerId.value == viewer)
  }

  /** A list of known library cards, meant for the viewer, names it. */
  predicate ToldOfLibrary(v: View, viewer: string, player: Player, id: string)
  {
    exists m | m in v.modifiers && m.KnownLibraryCards? && id in m.cardIds ::
      m.playerId == Some(player.id) && m.viewerId == Some(viewer)
  }

  /** The decision before the viewer, if it is the viewer's. */
  predicate Decides(v: View, viewer: string)
  {
    v.decision.Some? && v.decision.value.playerId == viewer
  }

  predicate AskedAbout(v: View, viewer: string, id: string)
  {
    Decides(v, viewer) && id in v.decision.value.cardIds
  }

  /** The viewer is not to see this card. */
  predicate Secret(v: View, viewer: string, p: nat, zone: Zone, i: nat)
    requires p < |v.players| && i < |Cards(v.players[p], zone)|
  {
    var player, id := v.players[p], Cards(v.players[p], zone)[i].instanceId;
    match zone
    case Hand =>
      && player.id != viewer && !RuleReveals(v, player) && !EffectReveals(v, player)
      && !ToldOfHand(v, viewer, player, id) && !AskedAbout(v, viewer, id)
    case Sideboard => player.id != viewer
    case Library =>
      && !(player.id == viewer && Decides(v, viewer) && v.decision.value.sideboarding)
      && !AskedAbout(v, viewer, id)
      && !(i + 1 == |player.library| && ToldOfLibrary(v, viewer, player, id))
  }

  /** The place is one that the viewer sees as it is, whatever lies there. */
  predicate Own(v: View, viewer: string, p: nat, zone: Zone)
    requires p < |v.players|
  {
    v.players[p].id == viewer && (zone.Library? ==> Decides(v, viewer) && v.decision.value.sideboarding)
  }

  lemma SecretIffBlanked(v: View, viewer: string, p: nat, zone: Zone, i: nat)
    requires p < |v.players| && i < |Cards(v.players[p], zone)|
    ensures ShowingOf(v, viewer, v.players[p], zone, i).Blanked? <==> Secret(v, viewer, p, zone, i)
    ensures ShowingOf(v, viewer, v.players[p], zone, i).Untouched? <==> Own(v, viewer, p, zone)
  {
    var player := v.players[p];
    assert HandIsRevealed(v, player) <==> RuleReveals(v, player) || EffectReveals(v, player);
  }

  /** A place holds the blank of its zone, owner and index exactly if its card is
      secret; any other card is shown, marked unless the place is the viewer's own. */
  lemma SecretsAreBlank(v: View, viewer: string, p: nat, zone: Zone, i: nat)
    requires p < |v.players| && i < |Cards(v.players[p], zone)|
    ensures var card, after := Cards(v.players[p], zone)[i], Cards(Projected(v, viewer).players[p], zone);
            && |after| == |Cards(v.players[p], zone)|
            && after[i] == (if Secret(v, viewer, p, zone, i) then Blank(card, zone, i)
                            else if Own(v, viewer, p, zone) then card else WithMark(card))
            && (!Own(v, viewer, p, zone) ==> (after[i] == Blank(card, zone, i) <==> Secret(v, viewer, p, zone, i)))
  {
    SecretIffBlanked(v, viewer, p, zone, i);
    assert "knownToViewer" in WithMark(Cards(v.players[p], zone)[i]).face.flags;
  }

  /** Some place holds a secret card of that id. */
  ghost predicate NamesSecret(v: View, viewer: string, id: string)
  {
    exists p: nat, zone, i: nat ::
      p < |v.players| && i < |Cards(v.players[p], zone)| && Cards(v.players[p], zone)[i].instanceId == id
      && Secret(v, viewer, p, zone, i)
  }

  /** An event forgets which card it was about exactly if it was about a secret one. */
  lemma EventsForgetSecrets(v: View, viewer: string, e: nat)
    requires e < |v.events|
    ensures var before, after := v.events[e], Projected(v, viewer).events;
            && |after| == |v.events|
            && after[e] == if before.cardInstanceId.Some? && NamesSecret(v, viewer, before.cardInstanceId.value)
                           then before.(cardInstanceId := None) else before
  {
    if v.events[e].cardInstanceId.Some? {
      var id := v.events[e].cardInstanceId.value;
      if IsBlanked(v, viewer, id) {
        var p: nat, zone, i: nat :| BlankedAt(v, viewer, p, zone, i, id);
        SecretIffBlanked(v, viewer, p, zone, i);
      }
      if NamesSecret(v, viewer, id) {
        var p: nat, zone, i: nat :|
          p < |v.players| && i < |Cards(v.players[p], zone)| && Cards(v.players[p], zone)[i].instanceId == id
          && Secret(v, viewer, p, zone, i);
        SecretIffBlanked(v, viewer, p, zone, i);
        assert BlankedAt(v, viewer, p, zone, i, id);
      }
    }
  }

  /** Of decisions the viewer is shown the viewer's own, and of notes on observed
      cards those meant for the viewer; every other modifier is shown. */
  lemma OnlyOwnDecisionAndNotes(v: View, viewer: string, m: Modifier)
    ensures Projected(v, viewer).decision == if Decides(v, viewer) then v.decision else None
    ensures m in Projected(v, viewer).modifiers <==>
            m in v.modifiers && (m.ObservedCardsNote? ==> m.viewerId == Some(viewer))
    ensures Projected(v, viewer).turn == v.turn && Projected(v, viewer).rest == v.rest
            && |Projected(v, viewer).players| == |v.players|
  {
    ShownModifiersKeep(v.modifiers, viewer, m);
  }
}
