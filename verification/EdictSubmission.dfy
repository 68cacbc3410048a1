/** Submission of an edict, once per principal and idempotency key: `application/edicts.py`. */
module EdictSubmission {
  import opened Durable
  import opened Invariant

  /** `request` is the digest of everything in the command but the generated identities. */
  datatype Submit = Submit(principal: PrincipalId, key: Key, request: Text, edict: EdictId, row: Edict)

  /** Identities and time drawn when the command is first served. */
  datatype Draw = Draw(memorial: Ulid, event: Ulid, now: Time)

  datatype SubmitResult = SubmitResult(edict: EdictId, memorial: MemorialId, event: EventId, deduplicated: bool)

  function KeyOf(c: Submit): SubmissionKey { SubmissionKey(c.principal, c.key) }

  function RootRow(c: Submit, now: Time): Memorial {
    Memorial(c.edict, true, Submitted, c.row.goal, None, now, 1, None)
  }

  function Filed(c: Submit, draw: Draw): Submission {
    Submission(c.request, c.edict, SubmittedRoot(draw.memorial), SubmittedEvent(draw.event))
  }

  /** The primary keys the four inserts need. */
  predicate KeysFree(db: Db, c: Submit, draw: Draw) {
    c.edict !in db.edicts && SubmittedRoot(draw.memorial) !in db.memorials && SubmittedEvent(draw.event) !in db.outbox
  }

  function Inserted(db: Db, c: Submit, draw: Draw): Db {
    db.(edicts := db.edicts[c.edict := c.row],
        memorials := db.memorials[SubmittedRoot(draw.memorial) := RootRow(c, draw.now)],
        outbox := db.outbox[SubmittedEvent(draw.event) := Event(EdictSubmitted, c.edict, SubmittedRoot(draw.memorial), Plain)],
        submissions := db.submissions[KeyOf(c) := Filed(c, draw)])
  }

  /** `_resolve_existing`: the durable rows still say what the stored identity says. */
  predicate Intact(db: Db, s: Submission) {
    && s.event in db.outbox && db.outbox[s.event].kind.EdictSubmitted?
    && db.outbox[s.event].edict == s.edict && db.outbox[s.event].memorial == s.memorial
    && s.edict in db.edicts && s.memorial in db.memorials && db.memorials[s.memorial].edict == s.edict
  }

  function SubmitOnce(db: Db, c: Submit, draw: Draw): Outcome<SubmitResult> {
    if KeyOf(c) in db.submissions then
      var s := db.submissions[KeyOf(c)];
      if s.request != c.request then Raised(Conflict)
      else if !Intact(db, s) then Raised(InvalidRequest)
      else Committed(db, SubmitResult(s.edict, s.memorial, s.event, true))
    else if !KeysFree(db, c, draw) then Raised(Conflict)
    else Committed(Inserted(db, c, draw), SubmitResult(c.edict, SubmittedRoot(draw.memorial), SubmittedEvent(draw.event), false))
  }

  method SubmitEdict(storage: Storage, c: Submit, draw: Draw) returns (r: Option<SubmitResult>)
    modifies storage
    ensures var o := SubmitOnce(old(storage.db), c, draw);
            && storage.db == o.After(old(storage.db))
            && r == if o.Committed? then Some(o.value) else None
  {
    var db := storage.db;
    var m, e := SubmittedRoot(draw.memorial), SubmittedEvent(draw.event);
    if KeyOf(c) in db.submissions {
      var s := db.submissions[KeyOf(c)];
      if s.request != c.request || !Intact(db, s) { return None; }
      return Some(SubmitResult(s.edict, s.memorial, s.event, true));
    }
    if c.edict in db.edicts { return None; }
    db := db.(edicts := db.edicts[c.edict := c.row]);
    if m in db.memorials { return None; }
    db := SetMemorial(db, m, RootRow(c, draw.now));
    if e in db.outbox { return None; }
    db := Post(db, e, Event(EdictSubmitted, c.edict, m, Plain));
    db := db.(submissions := db.submissions[KeyOf(c) := Filed(c, draw)]);
    storage.db := db;
    return Some(SubmitResult(c.edict, m, e, false));
  }

  lemma SubmitKeeps(db: Db, c: Submit, draw: Draw)
    requires Inv(db)
    ensures Keeps(db, SubmitOnce(db, c, draw).After(db))
  {
    var next := SubmitOnce(db, c, draw).After(db);
    if next == db {
      KeepsSame(db);
    } else {
      InsertedKeeps(db, c, draw);
    }
  }

  lemma InsertedKeeps(db: Db, c: Submit, draw: Draw)
    requires Inv(db) && KeysFree(db, c, draw) && KeyOf(c) !in db.submissions
    ensures Keeps(db, Inserted(db, c, draw))
  {
    var m, e := SubmittedRoot(draw.memorial), SubmittedEvent(draw.event);
    var v := Event(EdictSubmitted, c.edict, m, Plain);
    InsertsKeeps(db, m, RootRow(c, draw.now));
    var rooted := SetMemorial(db, m, RootRow(c, draw.now));
    AnnouncesKeeps(rooted, e, v);
    var posted := Post(rooted, e, v);
    KeepsTransitive(db, rooted, posted);
    FiledKeeps(posted, c, draw);
    KeepsTransitive(db, posted, Inserted(db, c, draw));
  }

  lemma FiledKeeps(db: Db, c: Submit, draw: Draw)
    requires Inv(db) && c.edict !in db.edicts && KeyOf(c) !in db.submissions
    ensures var next := db.(edicts := db.edicts[c.edict := c.row], submissions := db.submissions[KeyOf(c) := Filed(c, draw)]);
            Keeps(db, next)
  {
    AsideKeeps(db, db.(edicts := db.edicts[c.edict := c.row], submissions := db.submissions[KeyOf(c) := Filed(c, draw)]));
  }

  /** The first submission under a key commits if and only if its three identities are free; it writes the edict, a
      submitted root with the edict's goal, the event of both, and their identities under the key. */
  lemma SubmitWrites(db: Db, c: Submit, draw: Draw)
    requires SubmissionKey(c.principal, c.key) !in db.submissions
    ensures var o, m, e := SubmitOnce(db, c, draw), SubmittedRoot(draw.memorial), SubmittedEvent(draw.event);
            && (o.Committed? <==> c.edict !in db.edicts && m !in db.memorials && e !in db.outbox)
            && (o.Committed? ==>
                  o == Committed(
                         db.(edicts := db.edicts[c.edict := c.row],
                             memorials := db.memorials[m := Memorial(c.edict, true, Submitted, c.row.goal, None, draw.now, 1,
                                                                     None)],
                             outbox := db.outbox[e := Event(EdictSubmitted, c.edict, m, Plain)],
                             submissions := db.submissions[SubmissionKey(c.principal, c.key) :=
                                                             Submission(c.request, c.edict, m, e)]),
                         SubmitResult(c.edict, m, e, false)))
  {
  }

  /** A key that is taken answers an equal request with the stored identities, as long as edict, root and event are
      there and name each other, and refuses everything else; nothing changes. */
  lemma SubmitReplays(db: Db, c: Submit, draw: Draw)
    requires SubmissionKey(c.principal, c.key) in db.submissions
    ensures var o, s := SubmitOnce(db, c, draw), db.submissions[SubmissionKey(c.principal, c.key)];
            && (o.Committed? <==>
                  && s.request == c.request && s.edict in db.edicts
                  && s.memorial in db.memorials && db.memorials[s.memorial].edict == s.edict
                  && s.event in db.outbox && db.outbox[s.event].kind == EdictSubmitted
                  && db.outbox[s.event].edict == s.edict && db.outbox[s.event].memorial == s.memorial)
            && (o.Committed? ==> o == Committed(db, SubmitResult(s.edict, s.memorial, s.event, true)))
  {
  }

  /** Whatever happens after a submission, its key stays bound to its first identities: an equal request returns
      them and changes nothing, a different one is refused.  Later draws are not used. */
  lemma SubmitIsWriteOnce(db: Db, c: Submit, draw: Draw, later: Db, c': Submit, draw': Draw)
    requires KeyOf(c) !in db.submissions && SubmitOnce(db, c, draw).Committed?
    requires Advances(SubmitOnce(db, c, draw).db, later) && KeyOf(c') == KeyOf(c)
    ensures var first := SubmitOnce(db, c, draw).value;
            if c'.request == c.request then SubmitOnce(later, c', draw') == Committed(later, first.(deduplicated := true))
            else SubmitOnce(later, c', draw').Raised?
  {
    var next, m := SubmitOnce(db, c, draw).db, SubmittedRoot(draw.memorial);
    assert MemorialAdvances(next.memorials[m], later.memorials[m]);
    assert later.submissions[KeyOf(c)] == Filed(c, draw);
  }
}
