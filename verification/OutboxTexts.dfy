/** The dedupe texts of an outbox: in every run they name the same rows as the keys do. */
module OutboxTexts {
  import opened WalletTypes
  import opened WalletInvariant
  import opened WalletRuns
  import opened DedupeKeys
  import Engine = EngineEvents

  /** Reservation ids and delta kinds hold no colon, ingress keys start with mark- or funding-. */
  predicate Drawn(a: WalletAction) {
    match a
    case DoReserve(_, id) => NoColon(id)
    case DoAccountDelta(d) => NoColon(d.kind)
    case DoIngress(text, _, _) => text != [] && text[0] in {'m', 'f'}
    case _ => true
  }

  /** What engine events bring is drawn so, whatever their fields hold. */
  lemma EngineCommandsAreDrawn(event: Engine.EngineEvent, i: nat)
    requires i < |Engine.CommandsOf(event)|
    ensures Drawn(Engine.CommandsOf(event)[i])
  {
  }

  ghost predicate Textual(s: WalletState) {
    && (forall id | id in s.reservations :: NoColon(id))
    && (forall i | 0 <= i < |s.outbox| :: WellFormed(s.outbox[i].message.dedupeKey))
  }

  lemma ReservationsAfter(s: WalletState, a: WalletAction)
    ensures forall id | id in Next(s, a).reservations :: id in s.reservations || (a.DoReserve? && id == a.reservationId)
  {
  }

  lemma NewKeysAreWellFormed(s: WalletState, a: WalletAction)
    requires Textual(s) && Drawn(a)
    ensures forall m <- NewMessages(s, a) :: WellFormed(m.dedupeKey)
  {
  }

  lemma NextIsTextual(s: WalletState, a: WalletAction)
    requires Valid(s) && Textual(s) && Drawn(a)
    ensures Textual(Next(s, a))
  {
    var t := Next(s, a);
    StepFacts(s, a);
    ReservationsAfter(s, a);
    NewKeysAreWellFormed(s, a);
    forall i | 0 <= i < |t.outbox| ensures WellFormed(t.outbox[i].message.dedupeKey) {
      if i >= |s.outbox| {
        var m := NewMessages(s, a)[i - |s.outbox|];
        assert m in NewMessages(s, a) && t.outbox[i] == NewRow(m);
      }
    }
  }

  predicate AllDrawn(actions: seq<WalletAction>) {
    forall i | 0 <= i < |actions| :: Drawn(actions[i])
  }

  lemma {:induction false} EveryRunIsTextual(actions: seq<WalletAction>)
    requires AllDrawn(actions)
    ensures Textual(Run(EMPTY_WALLET, actions))
  {
    if actions != [] {
      EveryRunIsTextual(actions[..|actions| - 1]);
      EveryRunIsValid(actions[..|actions| - 1]);
      NextIsTextual(Run(EMPTY_WALLET, actions[..|actions| - 1]), actions[|actions| - 1]);
    }
  }

  /** The text is in the unique column. */
  predicate HasText(outbox: seq<OutboxRow>, text: string) {
    exists i :: 0 <= i < |outbox| && Render(outbox[i].message.dedupeKey) == text
  }

  lemma {:induction false} HasKeyIff(outbox: seq<OutboxRow>, key: DedupeKey)
    ensures HasKey(outbox, key) <==> exists i :: 0 <= i < |outbox| && outbox[i].message.dedupeKey == key
  {
    if outbox != [] {
      var init := outbox[..|outbox| - 1];
      HasKeyIff(init, key);
      if exists i :: 0 <= i < |outbox| && outbox[i].message.dedupeKey == key {
        var i :| 0 <= i < |outbox| && outbox[i].message.dedupeKey == key;
        assert i < |init| ==> init[i].message.dedupeKey == key;
      }
      if HasKey(init, key) {
        var i :| 0 <= i < |init| && init[i].message.dedupeKey == key;
        assert outbox[i].message.dedupeKey == key;
      }
    }
  }

  /**
   * In every run the rows' texts are pairwise different, and the conflict that an insert meets
   * by text is the one that the model meets by key.
   */
  lemma TextsActAsKeys(actions: seq<WalletAction>, key: DedupeKey)
    requires AllDrawn(actions) && WellFormed(key)
    ensures var outbox := Run(EMPTY_WALLET, actions).outbox;
      && (forall i, j | 0 <= i < j < |outbox| ::
            Render(outbox[i].message.dedupeKey) != Render(outbox[j].message.dedupeKey))
      && (HasText(outbox, Render(key)) <==> HasKey(outbox, key))
  {
    var outbox := Run(EMPTY_WALLET, actions).outbox;
    EveryRunIsValid(actions);
    EveryRunIsTextual(actions);
    HasKeyIff(outbox, key);
    forall i, j | 0 <= i < j < |outbox|
      ensures Render(outbox[i].message.dedupeKey) != Render(outbox[j].message.dedupeKey)
    {
      if Render(outbox[i].message.dedupeKey) == Render(outbox[j].message.dedupeKey) {
        RenderIsInjective(outbox[i].message.dedupeKey, outbox[j].message.dedupeKey);
      }
    }
    if HasText(outbox, Render(key)) {
      var i :| 0 <= i < |outbox| && Render(outbox[i].message.dedupeKey) == Render(key);
      RenderIsInjective(outbox[i].message.dedupeKey, key);
    }
  }
}
