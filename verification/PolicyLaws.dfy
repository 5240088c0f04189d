/** The withdrawal policy and the ledger, seen together. */
module PolicyLaws {
  import opened Prelude
  import opened Ledger
  import opened Books
  import opened BooksLaws
  import opened RefusalLaws
  import Velocity

  function DecisionOf(d: Velocity.RiskDecision): Decision {
    match d
    case Allow => Decision.Allow
    case ManualApproval => Decision.ManualApproval
    case Deny(_) => Decision.Deny
  }

  lemma CreatedRow(b: Books, id: WithdrawalId, q: Request, decision: Decision)
    requires id !in b.withdrawals && (q.user, q.idempotencyKey) !in b.byKey && Create(b, id, q, decision).Ok?
    ensures var b' := Create(b, id, q, decision).value.0;
      && id in b'.withdrawals
      && var w := b'.withdrawals[id];
         && (w.status.Validated? <==> decision.ManualApproval?) && (w.status.Failed? <==> decision.Deny?)
         && (w.reserved <==> !decision.Deny?) && (decision.Deny? ==> b'.ledger == b.ledger)
  {}

  /** The amount is above the entry that governs its chain and symbol. */
  ghost predicate Above(table: map<Velocity.LimitKey, int>, i: Velocity.RiskInput) {
    exists limit :: Velocity.Governs(table, i.chain, i.symbol, limit) && i.amount > limit
  }

  /**
   * A fresh, well-formed request judged on the balance the ledger holds always commits a row: a
   * denial leaves it failed with nothing reserved; anything else reserves the amount, whatever
   * rule let it through, and holds it for approval exactly above the manual threshold.
   */
  lemma JudgedRequest(cfg: Velocity.RiskConfig, b: Books, id: WithdrawalId, q: Request, i: Velocity.RiskInput)
    requires Inv(b) && id !in b.withdrawals && (q.user, q.idempotencyKey) !in b.byKey && 8 <= |q.idempotencyKey| <= 128
    requires IsPositive(q.amount) && i.amount == q.amount
    requires i.available == Balance(b.ledger, User(Available, q.user, q.asset))
    ensures var verdict := Velocity.Evaluate(cfg, i);
      var r := Create(b, id, q, DecisionOf(verdict));
      && r.Ok? && id in r.value.0.withdrawals
      && var w := r.value.0.withdrawals[id];
         && (verdict.Deny? ==> w.status.Failed? && !w.reserved && r.value.0.ledger == b.ledger)
         && (!verdict.Deny? ==> w.reserved && i.destination !in cfg.denylist && !cfg.maintenance)
         && (w.status.Validated? <==> !verdict.Deny? && Above(cfg.manualThreshold, i))
  {
    if !Velocity.Evaluate(cfg, i).Deny? {
      Velocity.ThresholdDecides(cfg, i);
    }
    FreshCreateAllowedIff(b, id, q, DecisionOf(Velocity.Evaluate(cfg, i)));
    CreatedRow(b, id, q, DecisionOf(Velocity.Evaluate(cfg, i)));
  }
}
