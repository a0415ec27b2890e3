/** The links table of PostgreSQL and the store on top of it (src/store/postgres-link-store.ts).

    A SQL statement is one atomic step; between two statements other sessions may insert rows,
    but nobody changes or removes one. */
module LinkTable {
  import opened PendingLinks
  import opened Wrappers

  datatype Row = Row(targetUrl: string, createdAt: int, expiresAt: Option<int>)

  type Table = map<string, Row>

  function RowOf(link: PendingLink): Row {
    Row(link.targetUrl, link.createdAt, link.expiresAt)
  }

  /** The replay test: same target and same creation instant. It does not look at the expiry. */
  predicate Matches(row: Row, link: PendingLink) {
    row.targetUrl == link.targetUrl && row.createdAt == link.createdAt
  }

  /** Every row of `t` is still in `u`, unchanged. */
  ghost predicate Grown(t: Table, u: Table) {
    forall c :: c in t ==> c in u && u[c] == t[c]
  }

  function Codes(links: seq<PendingLink>): set<string> {
    set l | l in links :: l.code
  }

  predicate DistinctCodes(links: seq<PendingLink>) {
    forall i, j :: 0 <= i < j < |links| ==> links[i].code != links[j].code
  }

  lemma CodesSnoc(links: seq<PendingLink>, last: PendingLink)
    ensures Codes(links + [last]) == Codes(links) + {last.code}
    ensures forall l :: l in links + [last] <==> l in links || l == last
  {
    assert forall l :: l in links + [last] <==> l in links || l == last;
    assert last in links + [last];
  }

  /** The first record of each code, in order. */
  function FirstOfEach(links: seq<PendingLink>): (batch: seq<PendingLink>)
    ensures DistinctCodes(batch) && Codes(batch) == Codes(links)
    ensures forall l :: l in batch ==> l in links
  {
    if links == [] then []
    else
      var front, last := links[..|links| - 1], links[|links| - 1];
      assert links == front + [last];
      CodesSnoc(front, last);
      var batch := FirstOfEach(front);
      if last.code in Codes(batch) then batch
      else
        CodesSnoc(batch, last);
        assert forall l :: l in batch ==> l.code in Codes(batch);
        batch + [last]
  }

  lemma FirstOfEachSnoc(front: seq<PendingLink>, last: PendingLink)
    ensures FirstOfEach(front + [last])
         == FirstOfEach(front) + (if last.code in Codes(FirstOfEach(front)) then [] else [last])
  {
    assert (front + [last])[..|front|] == front;
  }

  /** `link` comes before every other record of its code. */
  ghost predicate IsFirst(links: seq<PendingLink>, link: PendingLink) {
    exists i :: 0 <= i < |links| && links[i] == link && forall j :: 0 <= j < i ==> links[j].code != link.code
  }

  lemma IsFirstSnoc(front: seq<PendingLink>, last: PendingLink, link: PendingLink)
    ensures IsFirst(front + [last], link)
       <==> IsFirst(front, link) || (link == last && last.code !in Codes(front))
  {
    var links := front + [last];
    assert forall j :: 0 <= j < |front| ==> links[j] == front[j] && front[j] in front;
    if IsFirst(front, link) {
      var i :| 0 <= i < |front| && front[i] == link && forall j :: 0 <= j < i ==> front[j].code != link.code;
      assert links[i] == link;
    } else if link == last && last.code !in Codes(front) {
      assert links[|front|] == link;
    }
    if last.code in Codes(front) {
      var k :| 0 <= k < |front| && front[k].code == last.code;
      assert links[k].code == last.code;
    }
  }

  lemma {:induction false} FirstOfEachIsFirst(links: seq<PendingLink>, link: PendingLink)
    ensures link in FirstOfEach(links) <==> IsFirst(links, link)
  {
    if links != [] {
      var front, last := links[..|links| - 1], links[|links| - 1];
      FirstOfEachIsFirst(front, link);
      IsFirstSnoc(front, last, link);
      assert links == front + [last];
      CodesSnoc(FirstOfEach(front), last);
    }
  }

  /** When no code occurs twice, nothing is dropped and the order stays. */
  lemma {:induction false} DistinctNothingDropped(links: seq<PendingLink>)
    requires DistinctCodes(links)
    ensures FirstOfEach(links) == links
  {
    if links != [] {
      var front, last := links[..|links| - 1], links[|links| - 1];
      DistinctNothingDropped(front);
      assert links == front + [last] && last.code !in Codes(front);
    }
  }

  /** INSERT ... ON CONFLICT (code) DO NOTHING. */
  function InsertAbsent(t: Table, batch: seq<PendingLink>): (u: Table)
    ensures Grown(t, u) && u.Keys == t.Keys + Codes(batch)
  {
    if batch == [] then t
    else
      var front, last := batch[..|batch| - 1], batch[|batch| - 1];
      assert batch == front + [last];
      var u := InsertAbsent(t, front);
      if last.code in u then u else u[last.code := RowOf(last)]
  }

  lemma InsertAbsentSnoc(t: Table, front: seq<PendingLink>, last: PendingLink)
    ensures var u := InsertAbsent(t, front);
            InsertAbsent(t, front + [last]) == if last.code in u then u else u[last.code := RowOf(last)]
  {
    assert (front + [last])[..|front|] == front;
  }

  /** What RETURNING reports. */
  function NewCodes(t: Table, batch: seq<PendingLink>): set<string> {
    set l | l in batch && l.code !in t :: l.code
  }

  lemma NewCodesSnoc(t: Table, front: seq<PendingLink>, last: PendingLink)
    ensures NewCodes(t, front + [last]) == NewCodes(t, front) + (if last.code in t then {} else {last.code})
  {
    CodesSnoc(front, last);
  }

  lemma {:induction false} InsertedRows(t: Table, batch: seq<PendingLink>, link: PendingLink)
    requires DistinctCodes(batch) && link in batch && link.code !in t
    ensures InsertAbsent(t, batch)[link.code] == RowOf(link)
  {
    var front, last := batch[..|batch| - 1], batch[|batch| - 1];
    assert batch == front + [last];
    if link in front {
      InsertedRows(t, front, link);
    } else {
      assert forall l :: l in front ==> l.code != last.code;
    }
  }

  datatype BatchResult = BatchResult(persisted: set<string>, conflicts: seq<PendingLink>)

  predicate IsReplay(t: Table, link: PendingLink) {
    link.code in t && Matches(t[link.code], link)
  }

  function Replayed(written: set<string>, t: Table, batch: seq<PendingLink>): set<string> {
    set l | l in batch && l.code !in written && IsReplay(t, l) :: l.code
  }

  function Conflicts(written: set<string>, t: Table, batch: seq<PendingLink>): (c: seq<PendingLink>)
    ensures forall l :: l in c <==> l in batch && l.code !in written && !IsReplay(t, l)
  {
    if batch == [] then []
    else
      var front, last := batch[..|batch| - 1], batch[|batch| - 1];
      assert batch == front + [last];
      var c := Conflicts(written, t, front);
      if last.code in written || IsReplay(t, last) then c else c + [last]
  }

  lemma ReplayedSnoc(written: set<string>, t: Table, front: seq<PendingLink>, last: PendingLink)
    ensures Replayed(written, t, front + [last])
         == Replayed(written, t, front) + (if last.code !in written && IsReplay(t, last) then {last.code} else {})
    ensures Conflicts(written, t, front + [last])
         == Conflicts(written, t, front) + (if last.code !in written && !IsReplay(t, last) then [last] else [])
  {
    CodesSnoc(front, last);
    assert (front + [last])[..|front|] == front;
  }

  /** The verdict on a batch: what this statement wrote, or what the table holds by the time of
      the second statement. */
  function Classify(written: set<string>, t: Table, batch: seq<PendingLink>): BatchResult {
    BatchResult(written + Replayed(written, t, batch), Conflicts(written, t, batch))
  }

  lemma OnlyOneFirst(batch: seq<PendingLink>, a: PendingLink, b: PendingLink)
    requires DistinctCodes(batch) && a in batch && b in batch && a.code == b.code
    ensures a == b
  {
  }

  lemma ReplayedExactly(written: set<string>, t: Table, batch: seq<PendingLink>, link: PendingLink)
    requires DistinctCodes(batch) && link in batch
    ensures link.code in Replayed(written, t, batch) <==> link.code !in written && IsReplay(t, link)
  {
    forall l | l in batch && l.code == link.code
      ensures l == link
    {
      OnlyOneFirst(batch, l, link);
    }
  }

  /** The verdict does not depend on what others insert between the two statements: a code is
      persisted exactly when the table holds its record, and in conflict exactly when it holds
      another one. */
  lemma ClassifyMeans(t: Table, u: Table, batch: seq<PendingLink>, link: PendingLink)
    requires DistinctCodes(batch) && link in batch && Grown(InsertAbsent(t, batch), u)
    ensures link.code in u
    ensures var r := Classify(NewCodes(t, batch), u, batch);
            && var held := u[link.code].targetUrl == link.targetUrl && u[link.code].createdAt == link.createdAt;
               (link.code in r.persisted <==> held) && (link in r.conflicts <==> !held)
  {
    var written := NewCodes(t, batch);
    assert link.code in Codes(batch);
    ReplayedExactly(written, u, batch, link);
    if link.code !in t {
      InsertedRows(t, batch, link);
    }
  }

  lemma EitherVerdict(t: Table, u: Table, batch: seq<PendingLink>, link: PendingLink)
    requires Grown(InsertAbsent(t, batch), u) && DistinctCodes(batch) && link in batch
    ensures var r := Classify(NewCodes(t, batch), u, batch);
            link.code in r.persisted <==> link.code !in Codes(r.conflicts)
  {
    var r := Classify(NewCodes(t, batch), u, batch);
    ClassifyMeans(t, u, batch, link);
    if link.code in Codes(r.conflicts) {
      var l :| l in r.conflicts && l.code == link.code;
      assert l in batch;
      assert l == link;
    }
  }

  /** Persisted codes and conflicts are disjoint and together cover the codes of the batch. */
  lemma ClassifyPartitions(t: Table, u: Table, links: seq<PendingLink>)
    requires Grown(InsertAbsent(t, FirstOfEach(links)), u)
    ensures var batch := FirstOfEach(links);
            var r := Classify(NewCodes(t, batch), u, batch);
            && r.persisted !! Codes(r.conflicts)
            && r.persisted + Codes(r.conflicts) == Codes(links)
            && DistinctCodes(r.conflicts)
  {
    var batch := FirstOfEach(links);
    var r := Classify(NewCodes(t, batch), u, batch);
    forall l | l in batch
      ensures l.code in r.persisted <==> l.code !in Codes(r.conflicts)
    {
      EitherVerdict(t, u, batch, l);
    }
    assert r.persisted <= Codes(batch) && Codes(r.conflicts) <= Codes(batch);
    ConflictsDistinct(NewCodes(t, batch), u, batch);
  }

  lemma {:induction false} ConflictsDistinct(written: set<string>, t: Table, batch: seq<PendingLink>)
    requires DistinctCodes(batch)
    ensures DistinctCodes(Conflicts(written, t, batch))
  {
    if batch != [] {
      var front, last := batch[..|batch| - 1], batch[|batch| - 1];
      ConflictsDistinct(written, t, front);
      var c := Conflicts(written, t, front);
      assert forall i :: 0 <= i < |c| ==> c[i] in c;
      assert forall l :: l in c ==> l.code != last.code;
    }
  }

  /** Replaying a batch after any further inserts writes nothing, and every code persisted the
      first time is persisted again. */
  lemma ReplayIsIdempotent(t: Table, u: Table, v: Table, w: Table, links: seq<PendingLink>)
    requires Grown(InsertAbsent(t, FirstOfEach(links)), u)
    requires Grown(u, v) && Grown(InsertAbsent(v, FirstOfEach(links)), w)
    ensures InsertAbsent(v, FirstOfEach(links)) == v && NewCodes(v, FirstOfEach(links)) == {}
    ensures var batch := FirstOfEach(links);
            var first, second := Classify(NewCodes(t, batch), u, batch), Classify(NewCodes(v, batch), w, batch);
            first == second
  {
    var batch := FirstOfEach(links);
    assert forall l :: l in batch ==> l.code in Codes(batch);
    NothingToInsert(v, batch);
    SameVerdict(t, u, v, w, batch);
  }

  lemma SameVerdict(t: Table, u: Table, v: Table, w: Table, batch: seq<PendingLink>)
    requires DistinctCodes(batch)
    requires Grown(InsertAbsent(t, batch), u) && Grown(u, v) && Grown(InsertAbsent(v, batch), w)
    ensures Classify(NewCodes(t, batch), u, batch) == Classify(NewCodes(v, batch), w, batch)
  {
    var first, second := Classify(NewCodes(t, batch), u, batch), Classify(NewCodes(v, batch), w, batch);
    forall l | l in batch
      ensures l.code in first.persisted <==> l.code in second.persisted
      ensures l in first.conflicts <==> l in second.conflicts
    {
      ClassifyMeans(t, u, batch, l);
      ClassifyMeans(v, w, batch, l);
    }
    VerdictsEqual(NewCodes(t, batch), u, NewCodes(v, batch), w, batch);
  }

  /** Two verdicts on a batch that agree record by record are the same. */
  lemma VerdictsEqual(a: set<string>, t: Table, b: set<string>, u: Table, batch: seq<PendingLink>)
    requires a <= Codes(batch) && b <= Codes(batch)
    requires var first, second := Classify(a, t, batch), Classify(b, u, batch);
             forall l :: l in batch ==>
               (l.code in first.persisted <==> l.code in second.persisted)
               && (l in first.conflicts <==> l in second.conflicts)
    ensures Classify(a, t, batch) == Classify(b, u, batch)
  {
    var first, second := Classify(a, t, batch), Classify(b, u, batch);
    SameConflicts(a, t, b, u, batch);
    forall c | c in first.persisted || c in second.persisted
      ensures c in first.persisted && c in second.persisted
    {
      var l :| l in batch && l.code == c;
    }
  }

  lemma {:induction false} NothingToInsert(t: Table, batch: seq<PendingLink>)
    requires Codes(batch) <= t.Keys
    ensures InsertAbsent(t, batch) == t
  {
    if batch != [] {
      var front, last := batch[..|batch| - 1], batch[|batch| - 1];
      assert batch == front + [last];
      assert last in batch && Codes(front) <= Codes(batch);
      NothingToInsert(t, front);
    }
  }

  lemma {:induction false} SameConflicts(a: set<string>, t: Table, b: set<string>, u: Table, batch: seq<PendingLink>)
    requires forall l :: l in batch ==> (l.code in a || IsReplay(t, l) <==> l.code in b || IsReplay(u, l))
    ensures Conflicts(a, t, batch) == Conflicts(b, u, batch)
  {
    if batch != [] {
      SameConflicts(a, t, b, u, batch[..|batch| - 1]);
    }
  }

  /** What a caller can see before the call: the row that will hold the code is the one already
      there, or else the first record of the code in the batch. */
  ghost predicate WillHold(t: Table, links: seq<PendingLink>, link: PendingLink) {
    if link.code in t then Matches(t[link.code], link)
    else exists f :: IsFirst(links, f) && f.code == link.code && Matches(RowOf(f), link)
  }

  /** The row that ends up under a code of the batch. */
  lemma RowAfterInsert(t: Table, u: Table, batch: seq<PendingLink>, first: PendingLink)
    requires Grown(InsertAbsent(t, batch), u) && DistinctCodes(batch) && first in batch
    ensures first.code in u && u[first.code] == if first.code in t then t[first.code] else RowOf(first)
  {
    var v := InsertAbsent(t, batch);
    assert first.code in Codes(batch);
    assert first.code in v;
    if first.code !in t {
      InsertedRows(t, batch, first);
    }
  }

  lemma FirstExists(links: seq<PendingLink>, link: PendingLink) returns (first: PendingLink)
    requires link in links
    ensures first in FirstOfEach(links) && first.code == link.code
  {
    assert link.code in Codes(links);
    first :| first in FirstOfEach(links) && first.code == link.code;
  }

  lemma StoredExactlyWhenWillHold(t: Table, u: Table, links: seq<PendingLink>, link: PendingLink)
    requires Grown(InsertAbsent(t, FirstOfEach(links)), u) && link in links
    ensures IsReplay(u, link) <==> WillHold(t, links, link)
  {
    var first := FirstExists(links, link);
    RowAfterInsert(t, u, FirstOfEach(links), first);
    FirstOfEachIsFirst(links, first);
    forall f | IsFirst(links, f) && f.code == link.code
      ensures f == first
    {
      FirstOfEachIsFirst(links, f);
      OnlyOneFirst(FirstOfEach(links), f, first);
    }
  }

  /** The first record of a code that was free ends up stored as it is, and rows there before stay. */
  lemma FirstIsStored(t: Table, links: seq<PendingLink>, link: PendingLink)
    requires IsFirst(links, link) && link.code !in t
    ensures var u := InsertAbsent(t, FirstOfEach(links));
            link.code in u && u[link.code] == Row(link.targetUrl, link.createdAt, link.expiresAt)
  {
    FirstOfEachIsFirst(links, link);
    RowAfterInsert(t, InsertAbsent(t, FirstOfEach(links)), FirstOfEach(links), link);
  }

  /** A record of the batch is accounted for when the table holds it or it is reported. That is so
      exactly when it is the first of its code in the batch, or when the row that its code has or
      will get is the same link; any other record is silently lost. */
  lemma AccountedExactlyWhenFirstOrStored(t: Table, u: Table, links: seq<PendingLink>, link: PendingLink)
    requires Grown(InsertAbsent(t, FirstOfEach(links)), u) && link in links
    ensures var batch := FirstOfEach(links);
            IsReplay(u, link) || link in Classify(NewCodes(t, batch), u, batch).conflicts
            <==> IsFirst(links, link) || WillHold(t, links, link)
  {
    var batch := FirstOfEach(links);
    FirstOfEachIsFirst(links, link);
    StoredExactlyWhenWillHold(t, u, links, link);
    if link in batch {
      ClassifyMeans(t, u, batch, link);
    }
  }

  /** Two records of one code in one batch: the second is in no row and in no report. */
  lemma SecondRecordLost(a: PendingLink, b: PendingLink)
    requires a.code == b.code && !Matches(RowOf(a), b)
    ensures var t := InsertAbsent(map[], FirstOfEach([a, b]));
            var r := Classify(NewCodes(map[], FirstOfEach([a, b])), t, FirstOfEach([a, b]));
            !IsReplay(t, b) && b !in r.conflicts
  {
    var batch := FirstOfEach([a, b]);
    assert [a, b][..1] == [a] && [a][..0] == [];
    assert FirstOfEach([a]) == [a];
    assert a in [a];
    assert batch == [a];
    InsertedRows(map[], [a], a);
  }

  lemma InsertSnoc(t: Table, batch: seq<PendingLink>, i: nat)
    requires i < |batch|
    ensures var u, written := InsertAbsent(t, batch[..i]), NewCodes(t, batch[..i]);
            var link := batch[i];
            && InsertAbsent(t, batch[..i + 1]) == (if link.code in u then u else u[link.code := RowOf(link)])
            && NewCodes(t, batch[..i + 1]) == (if link.code in u then written else written + {link.code})
  {
    assert batch[..i + 1] == batch[..i] + [batch[i]];
    InsertAbsentSnoc(t, batch[..i], batch[i]);
    NewCodesSnoc(t, batch[..i], batch[i]);
  }

  method InsertRows(t: Table, batch: seq<PendingLink>) returns (u: Table, written: set<string>)
    ensures u == InsertAbsent(t, batch) && written == NewCodes(t, batch)
  {
    u, written := t, {};
    for i := 0 to |batch|
      invariant u == InsertAbsent(t, batch[..i]) && written == NewCodes(t, batch[..i])
    {
      var link := batch[i];
      InsertSnoc(t, batch, i);
      if link.code !in u {
        u := u[link.code := RowOf(link)];
        written := written + {link.code};
      }
    }
    assert batch[..|batch|] == batch;
  }

  method Deduplicate(links: seq<PendingLink>) returns (batch: seq<PendingLink>)
    ensures batch == FirstOfEach(links)
  {
    var seen: set<string> := {};
    batch := [];
    for i := 0 to |links|
      invariant batch == FirstOfEach(links[..i]) && seen == Codes(batch)
    {
      assert links[..i + 1] == links[..i] + [links[i]];
      FirstOfEachSnoc(links[..i], links[i]);
      CodesSnoc(batch, links[i]);
      if links[i].code !in seen {
        seen := seen + {links[i].code};
        batch := batch + [links[i]];
      }
    }
    assert links[..|links|] == links;
  }

  lemma VerdictSnoc(written: set<string>, t: Table, batch: seq<PendingLink>, i: nat)
    requires i < |batch|
    ensures var r, link := Classify(written, t, batch[..i]), batch[i];
            Classify(written, t, batch[..i + 1]) ==
              if link.code in written then r
              else if IsReplay(t, link) then r.(persisted := r.persisted + {link.code})
              else r.(conflicts := r.conflicts + [link])
  {
    assert batch[..i + 1] == batch[..i] + [batch[i]];
    ReplayedSnoc(written, t, batch[..i], batch[i]);
  }

  method ClassifyRows(written: set<string>, t: Table, batch: seq<PendingLink>)
    returns (persisted: set<string>, conflicts: seq<PendingLink>)
    ensures BatchResult(persisted, conflicts) == Classify(written, t, batch)
  {
    persisted, conflicts := written, [];
    for i := 0 to |batch|
      invariant BatchResult(persisted, conflicts) == Classify(written, t, batch[..i])
    {
      var link := batch[i];
      VerdictSnoc(written, t, batch, i);
      if link.code !in written {
        if link.code in t && t[link.code].targetUrl == link.targetUrl && t[link.code].createdAt == link.createdAt {
          persisted := persisted + {link.code};
        } else {
          conflicts := conflicts + [link];
        }
      }
    }
    assert batch[..|batch|] == batch;
  }

  /** What becomes of the first record of a code: stored when the code was free, and judged by the row
      that is there afterwards. */
  ghost predicate FirstSettled(t: Table, links: seq<PendingLink>, l: PendingLink) {
    var batch := FirstOfEach(links);
    var u := InsertAbsent(t, batch);
    var r := Classify(NewCodes(t, batch), u, batch);
    && l.code in u
    && (l.code !in t ==> u[l.code] == Row(l.targetUrl, l.createdAt, l.expiresAt))
    && var held := u[l.code].targetUrl == l.targetUrl && u[l.code].createdAt == l.createdAt;
       (l.code in r.persisted <==> held) && (l in r.conflicts <==> !held)
  }

  lemma FirstIsSettled(t: Table, links: seq<PendingLink>, l: PendingLink)
    requires IsFirst(links, l)
    ensures FirstSettled(t, links, l)
  {
    var batch := FirstOfEach(links);
    FirstOfEachIsFirst(links, l);
    ClassifyMeans(t, InsertAbsent(t, batch), batch, l);
    if l.code !in t {
      FirstIsStored(t, links, l);
    }
  }

  /** One row per code, with the click counters beside the immutable columns. */
  class Database {
    var rows: Table
    var clicks: map<string, nat>

    ghost predicate Valid()
      reads this
    {
      clicks.Keys == rows.Keys
    }

    constructor ()
      ensures Valid() && rows == map[]
    {
      rows, clicks := map[], map[];
    }

    method InsertReturning(batch: seq<PendingLink>) returns (written: set<string>)
      requires Valid()
      modifies this
      ensures Valid()
      ensures rows == InsertAbsent(old(rows), batch) && written == NewCodes(old(rows), batch)
      ensures forall c :: c in rows ==> clicks[c] == if c in old(rows) then old(clicks[c]) else 0
    {
      var t;
      t, written := InsertRows(rows, batch);
      rows := t;
      clicks := map c | c in t :: if c in clicks then clicks[c] else 0;
    }
  }

  class PostgresLinkStore {
    const db: Database

    constructor (db: Database)
      ensures this.db == db
    {
      this.db := db;
    }

    /** Inserts unless the code is taken; the stored link comes back only when it was. */
    method Create(code: string, row: Row) returns (r: Option<Row>)
      requires db.Valid()
      modifies db
      ensures db.Valid()
      ensures r == (if code in old(db.rows) then None else Some(row))
      ensures db.rows == (if code in old(db.rows) then old(db.rows) else old(db.rows)[code := row])
      ensures forall c :: c in db.rows ==> db.clicks[c] == if c in old(db.rows) then old(db.clicks[c]) else 0
    {
      if code in db.rows {
        return None;
      }
      db.rows := db.rows[code := row];
      db.clicks := db.clicks[code := 0];
      return Some(row);
    }

    /** Expired rows are not found. */
    method Find(code: string, now: int) returns (r: Option<Row>)
      ensures r == FindRow(db.rows, code, now)
      ensures r.Some? <==> code in db.rows && (db.rows[code].expiresAt.None? || db.rows[code].expiresAt.value > now)
      ensures r.Some? ==> r.value == db.rows[code]
    {
      if code in db.rows && (db.rows[code].expiresAt.None? || db.rows[code].expiresAt.value > now) {
        return Some(db.rows[code]);
      }
      return None;
    }

    /** The two statements of insertPendingBatch with nobody in between. */
    method InsertPendingBatch(links: seq<PendingLink>) returns (persisted: set<string>, conflicts: seq<PendingLink>)
      requires db.Valid()
      modifies db
      ensures db.Valid()
      ensures db.rows == InsertAbsent(old(db.rows), FirstOfEach(links))
      ensures BatchResult(persisted, conflicts)
           == Classify(NewCodes(old(db.rows), FirstOfEach(links)), db.rows, FirstOfEach(links))
      // the same in the records' own fields
      ensures db.rows.Keys == old(db.rows).Keys + Codes(links)
      ensures forall c :: c in old(db.rows) ==> db.rows[c] == old(db.rows)[c]
      ensures forall l :: IsFirst(links, l) && l.code !in old(db.rows) ==>
                l.code in db.rows && db.rows[l.code] == Row(l.targetUrl, l.createdAt, l.expiresAt)
      ensures forall l :: IsFirst(links, l) ==>
                && l.code in db.rows
                && var held := db.rows[l.code].targetUrl == l.targetUrl && db.rows[l.code].createdAt == l.createdAt;
                   (l.code in persisted <==> held) && (l in conflicts <==> !held)
    {
      forall l | IsFirst(links, l)
        ensures FirstSettled(db.rows, links, l)
      {
        FirstIsSettled(db.rows, links, l);
      }

      if |links| == 0 {
        return {}, [];
      }
      var batch := Deduplicate(links);
      var written := db.InsertReturning(batch);
      persisted, conflicts := ClassifyRows(written, db.rows, batch);
    }

    /** Adds aggregated clicks to the rows that exist and reports the codes that have none. A
        batch with a count below one is refused as a whole. */
    method RecordClickBatch(batch: map<string, int>) returns (r: Result<set<string>>)
      requires db.Valid()
      modifies db
      ensures db.Valid() && db.rows == old(db.rows)
      ensures r.Ok? <==> forall c :: c in batch ==> batch[c] >= 1
      ensures r.Err? ==> db.clicks == old(db.clicks)
      ensures r.Ok? ==> r.value == batch.Keys - db.rows.Keys
      ensures r.Ok? ==> forall c :: c in db.rows ==>
                          db.clicks[c] == old(db.clicks[c]) + (if c in batch then batch[c] else 0)
    {
      var left := batch.Keys;
      while left != {}
        invariant left <= batch.Keys
        invariant forall c :: c in batch && c !in left ==> batch[c] >= 1
        decreases left
      {
        var code :| code in left;
        if batch[code] < 1 {
          return Err("click count must be a positive integer");
        }
        left := left - {code};
      }
      db.clicks := map c | c in db.rows :: db.clicks[c] + (if c in batch then batch[c] else 0);
      return Ok(batch.Keys - db.rows.Keys);
    }
  }

  function FindRow(t: Table, code: string, now: int): Option<Row> {
    if code in t && (t[code].expiresAt.None? || t[code].expiresAt.value > now) then Some(t[code]) else None
  }
}
