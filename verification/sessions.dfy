/**
 * One negotiation session: the chat history and the one-time discount, and the step a
 * press of the submit button performs on them. The session is an explicit value passed
 * in and returned, in place of the framework's per-user session store.
 */
module Sessions {
  import opened Wrappers
  import opened Extraction
  import opened Catalog
  import opened Negotiation
  import opened Discount

  datatype Speaker = User | Bot

  /** A history entry: the user's offer with the message it came from, or the bot's reply. */
  datatype Message = Offered(offer: nat, input: string) | Reply(decision: Decision)

  type Entry = (Speaker, Message)

  datatype Session = Session(history: seq<Entry>, discount: Option<int>)

  /** The state a new session starts in: no history, no discount yet. */
  const Fresh: Session := Session([], None)

  /** One run of the page: whether the button was pressed, the selected product, the text,
      the sentiment score of the text and the value the random source supplies. */
  datatype Submission = Submission(pressed: bool, product: string, input: string, score: real, draw: nat)

  /** What the page shows for a run besides the history: nothing, the invalid-price error,
      or the decision on the offer. */
  datatype Outcome = Idle | InvalidPrice | Answered(decision: Decision)

  datatype Step = Step(session: Session, outcome: Outcome)

  /** The run reaches the negotiation: button pressed, text non-empty, and a number in it. */
  predicate Negotiates(sub: Submission) {
    sub.pressed && |sub.input| > 0 && ExtractPrice(sub.input).Some?
  }

  /** The discount after a valid offer: the one already fixed, or a fresh draw from the
      tier of the offer's sentiment. */
  function FixDiscount(current: Option<int>, score: real, draw: nat): (d: int)
    ensures current.Some? ==> d == current.value
    ensures current.None? ==> InRange(Classify(score), d)
  {
    match current
    case Some(fixed) => fixed
    case None => InitialDiscount(score, draw)
  }

  /** The submit branch of the page. */
  function Submit(s: Session, sub: Submission): (st: Step)
    requires sub.product in Products
    ensures !(sub.pressed && |sub.input| > 0) ==> st == Step(s, Idle)
    ensures sub.pressed && |sub.input| > 0 && NoDigit(sub.input) ==> st == Step(s, InvalidPrice)
    ensures s.discount.Some? ==> st.session.discount == s.discount
    ensures Negotiates(sub) ==>
      && st.session.discount.Some?
      && (s.discount.None? ==> InRange(Classify(sub.score), st.session.discount.value))
      && st.outcome.Answered?
      && st.outcome.decision == Negotiate(ExtractPrice(sub.input).value, sub.product, st.session.discount.value)
      && st.session.history == s.history + [
           (User, Offered(ExtractPrice(sub.input).value, sub.input)),
           (Bot, Reply(st.outcome.decision))]
  {
    if !(sub.pressed && |sub.input| > 0) then
      Step(s, Idle)
    else
      match ExtractPrice(sub.input)
      case None => Step(s, InvalidPrice)
      case Some(offer) =>
        var discount := FixDiscount(s.discount, sub.score, sub.draw);
        var decision := Negotiate(offer, sub.product, discount);
        var history := s.history + [(User, Offered(offer, sub.input)), (Bot, Reply(decision))];
        Step(Session(history, Some(discount)), Answered(decision))
  }

  predicate ProductsKnown(subs: seq<Submission>) {
    forall k :: 0 <= k < |subs| ==> subs[k].product in Products
  }

  /** Number of runs in `subs` that reach the negotiation. */
  function CountNegotiating(subs: seq<Submission>): nat {
    if |subs| == 0 then 0
    else (if Negotiates(subs[0]) then 1 else 0) + CountNegotiating(subs[1..])
  }

  /** The session after a series of page runs, in order. */
  function Run(s: Session, subs: seq<Submission>): (r: Session)
    requires ProductsKnown(subs)
    ensures s.history <= r.history
    ensures |r.history| == |s.history| + 2 * CountNegotiating(subs)
    ensures s.discount.Some? ==> r.discount == s.discount
    decreases |subs|
  {
    if |subs| == 0 then s else Run(Submit(s, subs[0]).session, subs[1..])
  }

  /** Entry pair `k` of the history is one turn: the user's offer, then the bot's reply
      to that offer, made with the session's discount. */
  ghost predicate TurnAt(h: seq<Entry>, k: nat, discount: Option<int>) {
    && 2 * k + 1 < |h|
    && h[2 * k].0 == User && h[2 * k].1.Offered?
    && h[2 * k + 1].0 == Bot && h[2 * k + 1].1.Reply?
    && ExtractPrice(h[2 * k].1.input) == Some(h[2 * k].1.offer)
    && h[2 * k + 1].1.decision.offer == h[2 * k].1.offer
    && discount.Some?
    && (h[2 * k + 1].1.decision.Accept? || h[2 * k + 1].1.decision.Counter? ==>
          h[2 * k + 1].1.decision.discount == discount.value)
  }

  /** The session invariant: the history is a sequence of whole turns, every reply carries
      the one session discount, and that discount lies within the tiers' overall range. */
  ghost predicate WellFormed(s: Session) {
    && |s.history| % 2 == 0
    && (forall k: nat :: k < |s.history| / 2 ==> TurnAt(s.history, k, s.discount))
    && (s.discount.Some? ==> 5 <= s.discount.value <= MaxDiscount)
  }

  lemma FreshWellFormed()
    ensures WellFormed(Fresh)
  {
  }

  /** One submission preserves the session invariant. */
  lemma SubmitPreservesWellFormed(s: Session, sub: Submission)
    requires sub.product in Products
    requires WellFormed(s)
    ensures WellFormed(Submit(s, sub).session)
  {
    if Negotiates(sub) {
      var s' := Submit(s, sub).session;
      var h, h' := s.history, s'.history;
      assert |h| > 0 ==> TurnAt(h, 0, s.discount);
      assert s'.discount.Some? && (s.discount.Some? ==> s'.discount == s.discount);
      forall k: nat | k < |h'| / 2 ensures TurnAt(h', k, s'.discount) {
        if k < |h| / 2 {
          assert TurnAt(h, k, s.discount);
          assert h'[2 * k] == h[2 * k] && h'[2 * k + 1] == h[2 * k + 1];
        } else {
          assert 2 * k == |h|;
        }
      }
    }
  }

  /** Any series of submissions from a well-formed session keeps it well-formed. */
  lemma {:induction false} RunPreservesWellFormed(s: Session, subs: seq<Submission>)
    requires ProductsKnown(subs)
    requires WellFormed(s)
    ensures WellFormed(Run(s, subs))
    decreases |subs|
  {
    if |subs| > 0 {
      SubmitPreservesWellFormed(s, subs[0]);
      RunPreservesWellFormed(Submit(s, subs[0]).session, subs[1..]);
    }
  }

  /** Runs that do not reach the negotiation leave the session exactly as it was. */
  lemma {:induction false} IdleRunsChangeNothing(s: Session, subs: seq<Submission>)
    requires ProductsKnown(subs)
    requires forall k :: 0 <= k < |subs| ==> !Negotiates(subs[k])
    ensures Run(s, subs) == s
    decreases |subs|
  {
    if |subs| > 0 {
      IdleRunsChangeNothing(Submit(s, subs[0]).session, subs[1..]);
    }
  }

  /** The discount of a session is the one the first valid offer fixed, from that offer's
      sentiment score; no later submission changes it, whatever its sentiment. */
  lemma {:induction false} DiscountFromFirstOffer(s: Session, subs: seq<Submission>, first: nat)
    requires ProductsKnown(subs)
    requires s.discount.None?
    requires first < |subs| && Negotiates(subs[first])
    requires forall k :: 0 <= k < first ==> !Negotiates(subs[k])
    ensures Run(s, subs).discount.Some?
    ensures Run(s, subs).discount == Run(s, subs[..first + 1]).discount
    ensures InRange(Classify(subs[first].score), Run(s, subs).discount.value)
    decreases |subs|
  {
    if first == 0 {
      var s1 := Submit(s, subs[0]).session;
      assert subs[..1][1..] == [];
      assert Run(s, subs[..1]) == Run(s1, []) == s1;
    } else {
      assert !Negotiates(subs[0]);
      var s1 := Submit(s, subs[0]).session;
      assert s1 == s;
      assert subs[..first + 1][1..] == subs[1..][..first];
      DiscountFromFirstOffer(s1, subs[1..], first - 1);
    }
  }
}
