/** Issuing a pair when nothing stands in its way. */
module Issuing {
  import opened Tables
  import opened Protocol
  import opened Serial

  /** No call fails. */
  ghost predicate Smooth(w: Ticks) {
    forall k: nat :: w(k).ok
  }

  ghost predicate UnusedHash(db: Db, hash: string) {
    forall i | i in db.tokens :: db.tokens[i].tokenHash != hash
  }

  /** Everything works, and the drawn row id and token value are new. */
  ghost predicate Fresh(cfg: Config, db: Db, t: Tick) {
    && t.ok && t.id !in db.tokens
    && |cfg.digest(t.value)| <= 64 && UnusedHash(db, cfg.digest(t.value))
  }

  lemma PersistAlone(cfg: Config, db: Db, q: Req, w: Ticks, k: nat)
    requires q.pc.Persist? && w(k).ok && AdmitsToken(db, q.pc.row)
    ensures RunAlone(cfg, db, q, w, k)
            == Move(db.(tokens := db.tokens[q.pc.row.id := q.pc.row]),
                    q.Goto(Issued(q.pc.grant, q.pc.user, q.pc.row, q.pc.pair)))
  {
    Unroll(cfg, db, q, w, k);
  }

  /** With a fresh draw the pair is issued, its row is stored, and nothing else changes. */
  lemma MintAlone(cfg: Config, db: Db, q: Req, w: Ticks, k: nat)
    requires q.pc.Mint? && q.pc.user.id in db.users && Fresh(cfg, db, w(k)) && w(k + 1).ok
    ensures var row := NewRow(cfg, q.pc.user, w(k));
            RunAlone(cfg, db, q, w, k)
            == Move(db.(tokens := db.tokens[row.id := row]),
                    q.Goto(Issued(q.pc.grant, q.pc.user, row, NewPair(cfg, q.pc.user, w(k)))))
  {
    Unroll(cfg, db, q, w, k);
    var row, pair := NewRow(cfg, q.pc.user, w(k)), NewPair(cfg, q.pc.user, w(k));
    PersistAlone(cfg, db, q.Goto(Persist(q.pc.grant, q.pc.user, row, pair)), w, k + 1);
  }
}
