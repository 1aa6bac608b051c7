/** Why a specified load can fail: only because prepareQuery refused a query. */
module Refusals {
  import opened Schema
  import opened Store
  import opened EagerSpec

  ghost predicate Expected<T>(r: Outcome<T>) {
    r.Err? ==> r.error != Unexpected
  }


  lemma LeavesExpected(db: Store, q: Request, base: seq<Row>)
    ensures Expected(LinksPart(db, q, base)) && Expected(ProxiesPart(db, q, base))
    ensures Expected(LogsPart(db, q, base)) && Expected(AccountGroupsPart(db, q, base))
  {
  }

  /** The specified load can only fail because prepareQuery refused some query of the tree. */
  lemma {:induction false} NeverUnexpected(db: Store, q: Request, core: Core)
    ensures Expected(Run(db, q, core))
    decreases q, 1
  {
    var prepared := Prepare(core, db.accounts.columns);
    if prepared.Ok? {
      var base := Base(db, prepared.value, q.with.Keys);
      GatherExpected(db, q, base);
    }
  }

  lemma {:induction false} GatherExpected(db: Store, q: Request, base: seq<Row>)
    ensures Expected(Gather(db, q, base))
    decreases q, 0
  {
    LeavesExpected(db, q, base);
    if Parent in q.with {
      ParentsExpected(db, q.with[Parent], base);
    }
    if Children in q.with {
      ChildrenExpected(db, q.with[Children], base);
    }
    AssembleExpected(LinksPart(db, q, base), ProxiesPart(db, q, base), ParentsPart(db, q, base),
                     ChildrenPart(db, q, base), LogsPart(db, q, base), AccountGroupsPart(db, q, base));
  }

  lemma {:induction false} ParentsExpected(db: Store, p: Request, base: seq<Row>)
    ensures Expected(ParentViews(db, p, base))
    decreases p, 2
  {
    NeverUnexpected(db, p, Where(p.core, ColumnIn(ID, KeySet(Keys(base, ParentAccountID)))));
  }

  lemma {:induction false} ChildrenExpected(db: Store, c: Request, base: seq<Row>)
    ensures Expected(ChildViews(db, c, base))
    decreases c, 2
  {
    NeverUnexpected(db, c, Where(WithField(c.core, ParentAccountID), ColumnIn(ParentAccountID, KeySet(IdKeys(base)))));
  }

  lemma AssembleExpected(links: Outcome<seq<Link>>, proxies: Outcome<seq<Row>>, parents: Outcome<seq<View>>,
                         children: Outcome<seq<View>>, logs: Outcome<seq<Row>>, ags: Outcome<seq<Row>>)
    requires Expected(links) && Expected(proxies) && Expected(parents) && Expected(children) && Expected(logs)
    requires Expected(ags)
    ensures Expected(Assemble(links, proxies, parents, children, logs, ags))
  {
  }
}
