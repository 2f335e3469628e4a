/**
 The write paths of the store, over all kinds of row: direct writes, writes prepared first and
 applied later, and batches of either. They reach the same contents, or fail alike.
 */
module StoreWrites {

  import opened Collections
  import opened Tables
  import opened Wrappers
  import opened StoreContents
  import opened StoreInvariant

  datatype Input =
    | DocumentIn(document: DocumentInput)
    | TextUnitIn(textUnit: TextUnitInput)
    | EntityIn(entity: EntityInput)
    | RelationshipIn(relationship: RelationshipInput)

  /** A row as it is logged. */
  datatype Logged =
    | DocumentLog(document: Item<Document>)
    | TextUnitLog(textUnit: Item<TextUnit>)
    | EntityLog(entity: Item<Entity>)
    | RelationshipLog(relationship: Item<Relationship>)

  datatype Growth = Growth(entities: nat, relationships: nat, documents: nat, memory: nat)

  // ---------------------------------------------------------------- one row

  ghost function Add(cfg: Config, c: Contents, x: Input, now: int): Option<Contents> {
    match x
    case DocumentIn(d) => AddDocument(cfg, c, d, now)
    case TextUnitIn(u) => AddTextUnit(cfg, c, u, now)
    case EntityIn(e) => AddEntity(cfg, c, e, now)
    case RelationshipIn(r) => AddRelationship(cfg, c, r, now)
  }

  ghost function Prepare(cfg: Config, c: Contents, x: Input, now: int): Option<Logged> {
    match x
    case DocumentIn(d) => (match PrepareDocument(cfg, c, d, now) case None => None case Some(p) => Some(DocumentLog(p)))
    case TextUnitIn(u) => (match PrepareTextUnit(cfg, c, u, now) case None => None case Some(p) => Some(TextUnitLog(p)))
    case EntityIn(e) => (match PrepareEntity(cfg, c, e, now) case None => None case Some(p) => Some(EntityLog(p)))
    case RelationshipIn(r) =>
      (match PrepareRelationship(cfg, c, r, now) case None => None case Some(p) => Some(RelationshipLog(p)))
  }

  ghost function Apply(cfg: Config, c: Contents, p: Logged): Option<Contents> {
    match p
    case DocumentLog(d) => ApplyDocument(c, d)
    case TextUnitLog(u) => ApplyTextUnit(cfg, c, u)
    case EntityLog(e) => ApplyEntity(cfg, c, e)
    case RelationshipLog(r) => ApplyRelationship(c, r)
  }

  /** A logged row as a prepared one is: linked to nothing. */
  predicate Unlinked(p: Logged) {
    (p.TextUnitLog? ==> p.textUnit.row.entityIDs == []) && (p.EntityLog? ==> p.entity.row.textUnitIDs == [])
  }

  function GrowthOf(p: Logged): Growth {
    match p
    case DocumentLog(d) => Growth(0, 0, 1, DocumentCost(d.row))
    case TextUnitLog(u) => Growth(0, 0, 0, TextUnitCost(u.row, u.vec))
    case EntityLog(e) => Growth(1, 0, 0, EntityCost(e.row, e.vec))
    case RelationshipLog(r) => Growth(0, 1, 0, RelationshipCost(r.row))
  }

  function Grown(u: Usage, g: Growth): Usage {
    Plus(u, g.entities, g.relationships, g.documents, g.memory)
  }

  /**
   Applying a row moves the usage by the row's growth, and keeps the contents well-formed
   exactly when the row is linked to nothing.
   */
  lemma ApplyKeeps(cfg: Config, c: Contents, p: Logged)
    requires WellFormed(cfg, c) && Apply(cfg, c, p).Some?
    ensures WellFormed(cfg, Apply(cfg, c, p).value) <==> Unlinked(p)
    ensures UsageOf(Apply(cfg, c, p).value) == Grown(UsageOf(c), GrowthOf(p))
  {
    VecsAreNamed(cfg, c);
    ApplyUsage(cfg, c, p);
    hide UsageOf, KeysOk, CountersOk, LinksOk, InUse;
    if Unlinked(p) {
      ApplyUnlinked(cfg, c, p);
    } else {
      LinkedBreaks(cfg, c, p);
    }
  }

  /** Embeddings are of rows in the table. */
  ghost predicate VecsNamed(c: Contents) {
    c.textUnitVecs.Keys <= c.textUnits.Keys && c.entityVecs.Keys <= c.entities.Keys
  }

  lemma VecsAreNamed(cfg: Config, c: Contents)
    requires WellFormed(cfg, c)
    ensures VecsNamed(c)
  {
    hide KeysOk, ReferencesOk, CountersOk;
  }

  lemma ApplyUsage(cfg: Config, c: Contents, p: Logged)
    requires VecsNamed(c) && Apply(cfg, c, p).Some?
    ensures VecsNamed(Apply(cfg, c, p).value)
    ensures UsageOf(Apply(cfg, c, p).value) == Grown(UsageOf(c), GrowthOf(p))
  {
    hide UsageOf, InUse;
    match p {
      case DocumentLog(d) => PutDocumentUsage(c, d.id, d.row);
      case TextUnitLog(u) => PutTextUnitUsage(c, u.id, u.row, u.vec);
      case EntityLog(e) => PutEntityUsage(c, e.id, e.row, e.vec);
      case RelationshipLog(r) => PutRelationshipUsage(c, r.id, r.row);
    }
  }

  lemma ApplyUnlinked(cfg: Config, c: Contents, p: Logged)
    requires WellFormed(cfg, c) && Unlinked(p) && Apply(cfg, c, p).Some?
    ensures WellFormed(cfg, Apply(cfg, c, p).value)
  {
    hide UsageOf, KeysOk, ReferencesOk, VecsOk, CountersOk;
    match p {
      case DocumentLog(d) => PutDocumentKeeps(cfg, c, d.id, d.row);
      case TextUnitLog(u) => PutTextUnitKeeps(cfg, c, u.id, u.row, u.vec);
      case EntityLog(e) => PutEntityKeeps(cfg, c, e.id, e.row, e.vec);
      case RelationshipLog(r) => PutRelationshipKeeps(cfg, c, r.id, r.row);
    }
  }

  /** A link of the new row has no counterpart. */
  lemma LinkedBreaks(cfg: Config, c: Contents, p: Logged)
    requires WellFormed(cfg, c) && !Unlinked(p) && Apply(cfg, c, p).Some?
    ensures !LinksOk(Apply(cfg, c, p).value.textUnits, Apply(cfg, c, p).value.entities)
  {
    hide KeysOk, VecsOk, CountersOk, UsageOf, InUse, ParentsLive, EndpointsLive, MembersLive;
    var d := Apply(cfg, c, p).value;
    if p.TextUnitLog? {
      var e := p.textUnit.row.entityIDs[0];
      assert e in d.textUnits[p.textUnit.id].entityIDs;
      assert e in c.entities ==> p.textUnit.id !in c.entities[e].textUnitIDs;
    } else {
      var u := p.entity.row.textUnitIDs[0];
      assert u in d.entities[p.entity.id].textUnitIDs;
      assert u in c.textUnits ==> p.entity.id !in c.textUnits[u].entityIDs;
    }
  }

  /**
   Preparing fails exactly when writing directly does; and what was prepared can be applied to
   the contents it was prepared on, and gives what the direct write gives.
   */
  lemma TwoPhaseIsDirect(cfg: Config, c: Contents, x: Input, now: int)
    requires CountersOk(c)
    ensures Prepare(cfg, c, x, now).Some? <==> Add(cfg, c, x, now).Some?
    ensures Prepare(cfg, c, x, now).Some? ==>
      var p := Prepare(cfg, c, x, now).value;
      Unlinked(p) && Apply(cfg, c, p) == Add(cfg, c, x, now)
  {
    AddByParts(cfg, c, x, now);
  }

  /** A direct write adds a row under an id never used before, and moves no other. */
  lemma AddKeeps(cfg: Config, c: Contents, x: Input, now: int)
    requires WellFormed(cfg, c) && Add(cfg, c, x, now).Some?
    ensures WellFormed(cfg, Add(cfg, c, x, now).value)
    ensures WithinQuotas(cfg.quotas, UsageOf(c)) ==> WithinQuotas(cfg.quotas, UsageOf(Add(cfg, c, x, now).value))
  {
    TwoPhaseIsDirect(cfg, c, x, now);
    ApplyKeeps(cfg, c, Prepare(cfg, c, x, now).value);
    AddAdmitted(cfg, c, x, now);
  }

  lemma AddAdmitted(cfg: Config, c: Contents, x: Input, now: int)
    requires Prepare(cfg, c, x, now).Some?
    ensures AdmitsGrowth(cfg.quotas, UsageOf(c), GrowthOf(Prepare(cfg, c, x, now).value))
  {
  }

  // ---------------------------------------------------------------- batches of logged rows

  function KindOf(p: Logged): nat {
    match p case DocumentLog(_) => 0 case TextUnitLog(_) => 1 case EntityLog(_) => 2 case RelationshipLog(_) => 3
  }

  ghost predicate OneKind(ps: seq<Logged>) {
    forall i, j :: 0 <= i < j < |ps| ==> KindOf(ps[i]) == KindOf(ps[j])
  }

  /** Two rows of a kind that cannot both be stored. */
  predicate Clash(p: Logged, q: Logged) {
    match (p, q)
    case (DocumentLog(a), DocumentLog(b)) => a.id == b.id || a.row.extID == b.row.extID
    case (TextUnitLog(a), TextUnitLog(b)) => a.id == b.id || a.row.extID == b.row.extID
    case (EntityLog(a), EntityLog(b)) => a.id == b.id || a.row.extID == b.row.extID || a.row.title == b.row.title
    case (RelationshipLog(a), RelationshipLog(b)) =>
      || a.id == b.id || RelationshipKey(a.row) == RelationshipKey(b.row)
      || (a.row.extID != "" && a.row.extID == b.row.extID)
    case _ => false
  }

  lemma InUsePut<K, V>(rows: map<Id, V>, key: V -> Option<K>, id: Id, v: V, k: K)
    requires id !in rows
    ensures InUse(rows[id := v], key, k) <==> InUse(rows, key, k) || key(v) == Some(k)
  {
    var more := rows[id := v];
    if InUse(rows, key, k) {
      var i: Id :| i in rows && key(rows[i]) == Some(k);
      assert i in more && more[i] == rows[i];
    }
    if key(v) == Some(k) {
      assert id in more && more[id] == v;
    }
  }

  /** After a row is in, a second of the kind applies if it did before and does not clash. */
  lemma AppliesAfter(cfg: Config, c: Contents, p: Logged, q: Logged)
    requires Apply(cfg, c, p).Some? && KindOf(p) == KindOf(q)
    ensures Apply(cfg, Apply(cfg, c, p).value, q).Some? <==> Apply(cfg, c, q).Some? && !Clash(p, q)
  {
    hide InUse;
    match (p, q) {
      case (DocumentLog(a), DocumentLog(b)) =>
        InUsePut(c.documents, DocumentExt, a.id, a.row, b.row.extID);
      case (TextUnitLog(a), TextUnitLog(b)) =>
        InUsePut(c.textUnits, TextUnitExt, a.id, a.row, b.row.extID);
      case (EntityLog(a), EntityLog(b)) =>
        InUsePut(c.entities, EntityExt, a.id, a.row, b.row.extID);
        InUsePut(c.entities, EntityTitle, a.id, a.row, b.row.title);
      case (RelationshipLog(a), RelationshipLog(b)) =>
        InUsePut(c.relationships, RelationshipKey, a.id, a.row, RelationshipKey(b.row).value);
        InUsePut(c.relationships, RelationshipExt, a.id, a.row, b.row.extID);
    }
  }

  /** One after the other, stopping at the first failure. */
  ghost function ApplyAll(cfg: Config, c: Contents, ps: seq<Logged>): Option<Contents> {
    if ps == [] then Some(c)
    else
      match ApplyAll(cfg, c, ps[..|ps| - 1])
      case None => None
      case Some(d) => Apply(cfg, d, ps[|ps| - 1])
  }

  /** Every row applies to the contents as they were, and no two clash. */
  ghost predicate Batchable(cfg: Config, c: Contents, ps: seq<Logged>) {
    && (forall i :: 0 <= i < |ps| ==> Apply(cfg, c, ps[i]).Some?)
    && (forall i, j :: 0 <= i < j < |ps| ==> !Clash(ps[i], ps[j]))
  }

  /** A row applies after a batch if it applies before it and clashes with none of it. */
  lemma {:induction false} AppliesAfterAll(cfg: Config, c: Contents, ps: seq<Logged>, q: Logged)
    requires ApplyAll(cfg, c, ps).Some? && OneKind(ps + [q])
    ensures Apply(cfg, ApplyAll(cfg, c, ps).value, q).Some?
       <==> Apply(cfg, c, q).Some? && forall i :: 0 <= i < |ps| ==> !Clash(ps[i], q)
    decreases |ps|
  {
    if ps != [] {
      var n := |ps| - 1;
      var init, last := ps[..n], ps[n];
      assert OneKind(init + [q]) by {
        assert forall i :: 0 <= i < n ==> (ps + [q])[i] == (init + [q])[i];
        assert (ps + [q])[n + 1] == q;
      }
      AppliesAfterAll(cfg, c, init, q);
      assert KindOf((ps + [q])[n]) == KindOf((ps + [q])[n + 1]);
      AppliesAfter(cfg, ApplyAll(cfg, c, init).value, last, q);
    }
  }

  /**
   The batch check, made once against the contents as they were, passes exactly when the rows
   can be applied one by one.
   */
  lemma {:induction false} BatchIsIteration(cfg: Config, c: Contents, ps: seq<Logged>)
    requires OneKind(ps)
    ensures ApplyAll(cfg, c, ps).Some? <==> Batchable(cfg, c, ps)
    decreases |ps|
  {
    hide Apply, Clash;
    if ps != [] {
      var n := |ps| - 1;
      var init, last := ps[..n], ps[n];
      assert ps == init + [last];
      assert forall i :: 0 <= i < n ==> ps[i] == init[i];
      BatchIsIteration(cfg, c, init);
      if ApplyAll(cfg, c, init).Some? {
        AppliesAfterAll(cfg, c, init, last);
      }
    }
  }

  // ---------------------------------------------------------------- batches of inputs

  function TotalGrowth(ps: seq<Logged>): Growth {
    if ps == [] then Growth(0, 0, 0, 0)
    else Both(TotalGrowth(ps[..|ps| - 1]), GrowthOf(ps[|ps| - 1]))
  }

  function Both(g: Growth, h: Growth): Growth {
    Growth(g.entities + h.entities, g.relationships + h.relationships, g.documents + h.documents, g.memory + h.memory)
  }

  /** The row an input becomes, under the n-th next id of its kind. */
  function ToLog(cfg: Config, c: Contents, x: Input, n: nat, now: int): Logged {
    match x
    case DocumentIn(d) => DocumentLog(Item(c.counters.document + n, NewDocument(d, now), []))
    case TextUnitIn(u) => TextUnitLog(Item(c.counters.textUnit + n, NewTextUnit(u, now), u.embedding))
    case EntityIn(e) => EntityLog(Item(c.counters.entity + n, NewEntity(cfg, e, now), e.embedding))
    case RelationshipIn(r) => RelationshipLog(Item(c.counters.relationship + n, NewRelationship(r, now), []))
  }

  /** The rows of a batch, under consecutive ids. */
  function ToLogs(cfg: Config, c: Contents, xs: seq<Input>, now: int): (ps: seq<Logged>)
    ensures |ps| == |xs| && forall i :: 0 <= i < |xs| ==> ps[i] == ToLog(cfg, c, xs[i], i + 1, now)
  {
    seq(|xs|, (i: nat) requires i < |xs| => ToLog(cfg, c, xs[i], i + 1, now))
  }

  /** What a direct write checks of its input besides what applying the row checks. */
  ghost predicate InputOk(cfg: Config, x: Input) {
    match x
    case DocumentIn(d) => !cfg.blank(d.extID)
    case TextUnitIn(u) => !cfg.blank(u.extID) && EmbeddingOk(cfg, u.embedding)
    case EntityIn(e) => !cfg.blank(e.extID) && EmbeddingOk(cfg, e.embedding)
    case RelationshipIn(r) => true
  }

  ghost predicate InputsOk(cfg: Config, xs: seq<Input>) {
    forall i :: 0 <= i < |xs| ==> InputOk(cfg, xs[i])
  }

  predicate AdmitsGrowth(q: Quotas, u: Usage, g: Growth) {
    Admits(q, u, g.entities, g.relationships, g.documents, g.memory)
  }

  /** The batch is checked as a whole, its total growth against the quotas once. */
  ghost function PrepareBatch(cfg: Config, c: Contents, xs: seq<Input>, now: int): Option<seq<Logged>> {
    var ps := ToLogs(cfg, c, xs, now);
    if InputsOk(cfg, xs) && Batchable(cfg, c, ps) && AdmitsGrowth(cfg.quotas, UsageOf(c), TotalGrowth(ps))
    then Some(ps) else None
  }

  /** A bulk write: all of the batch, or nothing. */
  ghost function MSet(cfg: Config, c: Contents, xs: seq<Input>, now: int): Option<Contents> {
    match PrepareBatch(cfg, c, xs, now)
    case None => None
    case Some(ps) => ApplyAll(cfg, c, ps)
  }

  ghost function AddAll(cfg: Config, c: Contents, xs: seq<Input>, now: int): Option<Contents> {
    if xs == [] then Some(c)
    else
      match AddAll(cfg, c, xs[..|xs| - 1], now)
      case None => None
      case Some(d) => Add(cfg, d, xs[|xs| - 1], now)
  }

  ghost predicate OneKindIn(xs: seq<Input>) {
    forall i, j :: 0 <= i < j < |xs| ==>
      (xs[i].DocumentIn? <==> xs[j].DocumentIn?) && (xs[i].TextUnitIn? <==> xs[j].TextUnitIn?)
      && (xs[i].EntityIn? <==> xs[j].EntityIn?)
  }

  /** A direct write is its input's own check, the row's, and the quotas'. */
  lemma AddByParts(cfg: Config, c: Contents, x: Input, now: int)
    requires CountersOk(c)
    ensures var p := ToLog(cfg, c, x, 1, now);
      && Unlinked(p)
      && (Add(cfg, c, x, now).Some? <==>
            InputOk(cfg, x) && Apply(cfg, c, p).Some? && AdmitsGrowth(cfg.quotas, UsageOf(c), GrowthOf(p)))
      && (Add(cfg, c, x, now).Some? ==> Add(cfg, c, x, now) == Apply(cfg, c, p))
  {
    OneByParts(cfg, c, x, now);
  }

  lemma OneByParts(cfg: Config, c: Contents, x: Input, now: int)
    requires c.counters.document + 1 !in c.documents && c.counters.textUnit + 1 !in c.textUnits
    requires c.counters.entity + 1 !in c.entities && c.counters.relationship + 1 !in c.relationships
    ensures var p := ToLog(cfg, c, x, 1, now);
      Add(cfg, c, x, now).Some? <==>
        InputOk(cfg, x) && Apply(cfg, c, p).Some? && AdmitsGrowth(cfg.quotas, UsageOf(c), GrowthOf(p))
    ensures Add(cfg, c, x, now).Some? ==> Add(cfg, c, x, now) == Apply(cfg, c, ToLog(cfg, c, x, 1, now))
  {
    hide UsageOf, InUse, DocumentCost, TextUnitCost, EntityCost, RelationshipCost, Admits, IsFinite;
    match x
    case DocumentIn(_) =>
    case TextUnitIn(_) =>
    case EntityIn(_) =>
    case RelationshipIn(_) =>
  }

  ghost predicate AllUnlinked(ps: seq<Logged>) {
    forall i :: 0 <= i < |ps| ==> Unlinked(ps[i])
  }

  lemma {:induction false} ApplyAllUsage(cfg: Config, c: Contents, ps: seq<Logged>)
    requires VecsNamed(c) && ApplyAll(cfg, c, ps).Some?
    ensures VecsNamed(ApplyAll(cfg, c, ps).value)
    ensures UsageOf(ApplyAll(cfg, c, ps).value) == Grown(UsageOf(c), TotalGrowth(ps))
    decreases |ps|
  {
    hide UsageOf, VecsNamed, Apply;
    if ps != [] {
      var n := |ps| - 1;
      ApplyAllUsage(cfg, c, ps[..n]);
      ApplyUsage(cfg, ApplyAll(cfg, c, ps[..n]).value, ps[n]);
    }
  }

  lemma {:induction false} ApplyAllUnlinked(cfg: Config, c: Contents, ps: seq<Logged>)
    requires WellFormed(cfg, c) && AllUnlinked(ps) && ApplyAll(cfg, c, ps).Some?
    ensures WellFormed(cfg, ApplyAll(cfg, c, ps).value)
    decreases |ps|
  {
    hide WellFormed, Apply, Unlinked;
    if ps != [] {
      var n := |ps| - 1;
      ApplyAllUnlinked(cfg, c, ps[..n]);
      ApplyUnlinked(cfg, ApplyAll(cfg, c, ps[..n]).value, ps[n]);
    }
  }

  /** Rows of one kind leave the table at the other end of their links alone, and stay as they were put. */
  lemma {:induction false} EntityStays(cfg: Config, c: Contents, ps: seq<Logged>, i: nat)
    requires OneKind(ps) && i < |ps| && ps[i].EntityLog? && ApplyAll(cfg, c, ps).Some?
    ensures var d, id := ApplyAll(cfg, c, ps).value, ps[i].entity.id;
      && d.textUnits == c.textUnits && c.entities.Keys <= d.entities.Keys
      && id in d.entities && d.entities[id] == ps[i].entity.row && id !in c.entities
    decreases |ps|
  {
    var n := |ps| - 1;
    assert KindOf(ps[n]) == 2;
    if n > 0 {
      assert KindOf(ps[0]) == 2;
      EntityStays(cfg, c, ps[..n], if i < n then i else 0);
    }
  }

  lemma {:induction false} TextUnitStays(cfg: Config, c: Contents, ps: seq<Logged>, i: nat)
    requires OneKind(ps) && i < |ps| && ps[i].TextUnitLog? && ApplyAll(cfg, c, ps).Some?
    ensures var d, id := ApplyAll(cfg, c, ps).value, ps[i].textUnit.id;
      && d.entities == c.entities && c.textUnits.Keys <= d.textUnits.Keys
      && id in d.textUnits && d.textUnits[id] == ps[i].textUnit.row && id !in c.textUnits
    decreases |ps|
  {
    var n := |ps| - 1;
    assert KindOf(ps[n]) == 1;
    if n > 0 {
      assert KindOf(ps[0]) == 1;
      TextUnitStays(cfg, c, ps[..n], if i < n then i else 0);
    }
  }

  /** One linked row is enough: the link has no counterpart, and no row of the kind gives it one. */
  lemma LinkedBatchBreaks(cfg: Config, c: Contents, ps: seq<Logged>, i: nat)
    requires WellFormed(cfg, c) && OneKind(ps) && ApplyAll(cfg, c, ps).Some? && i < |ps| && !Unlinked(ps[i])
    ensures !LinksOk(ApplyAll(cfg, c, ps).value.textUnits, ApplyAll(cfg, c, ps).value.entities)
  {
    hide KeysOk, VecsOk, CountersOk, ParentsLive, EndpointsLive, MembersLive, OneKind, ApplyAll;
    var d := ApplyAll(cfg, c, ps).value;
    if ps[i].TextUnitLog? {
      TextUnitStays(cfg, c, ps, i);
      var e := ps[i].textUnit.row.entityIDs[0];
      assert e in d.textUnits[ps[i].textUnit.id].entityIDs;
      assert e in c.entities ==> ps[i].textUnit.id !in c.entities[e].textUnitIDs;
    } else {
      EntityStays(cfg, c, ps, i);
      var u := ps[i].entity.row.textUnitIDs[0];
      assert u in d.entities[ps[i].entity.id].textUnitIDs;
      assert u in c.textUnits ==> ps[i].entity.id !in c.textUnits[u].entityIDs;
    }
  }

  /** A batch of one kind keeps the contents well-formed exactly when none of its rows is linked. */
  lemma ApplyAllKeeps(cfg: Config, c: Contents, ps: seq<Logged>)
    requires WellFormed(cfg, c) && ApplyAll(cfg, c, ps).Some?
    ensures AllUnlinked(ps) ==> WellFormed(cfg, ApplyAll(cfg, c, ps).value)
    ensures OneKind(ps) && WellFormed(cfg, ApplyAll(cfg, c, ps).value) ==> AllUnlinked(ps)
    ensures UsageOf(ApplyAll(cfg, c, ps).value) == Grown(UsageOf(c), TotalGrowth(ps))
  {
    hide UsageOf, KeysOk, CountersOk, ApplyAll, LinksOk, Unlinked, OneKind;
    VecsAreNamed(cfg, c);
    ApplyAllUsage(cfg, c, ps);
    if AllUnlinked(ps) {
      ApplyAllUnlinked(cfg, c, ps);
    } else if OneKind(ps) {
      var i: nat :| i < |ps| && !Unlinked(ps[i]);
      LinkedBatchBreaks(cfg, c, ps, i);
    }
  }

  predicate SameKindIn(x: Input, y: Input) {
    (x.DocumentIn? <==> y.DocumentIn?) && (x.TextUnitIn? <==> y.TextUnitIn?) && (x.EntityIn? <==> y.EntityIn?)
  }

  lemma ToLogAfter(cfg: Config, c: Contents, x: Input, n: nat, y: Input, m: nat, now: int)
    requires SameKindIn(x, y) && n > 0 && Apply(cfg, c, ToLog(cfg, c, x, n, now)).Some?
    ensures ToLog(cfg, Apply(cfg, c, ToLog(cfg, c, x, n, now)).value, y, m, now) == ToLog(cfg, c, y, n + m, now)
  {
  }

  ghost predicate SameKindAs(xs: seq<Input>, y: Input) {
    forall i :: 0 <= i < |xs| ==> SameKindIn(xs[i], y)
  }

  /** After a batch of n the next id is the (n + 1)-th. */
  lemma {:induction false} ToLogAfterAll(cfg: Config, c: Contents, xs: seq<Input>, y: Input, m: nat, now: int)
    requires m > 0 && SameKindAs(xs, y)
    requires ApplyAll(cfg, c, ToLogs(cfg, c, xs, now)).Some?
    ensures ToLog(cfg, ApplyAll(cfg, c, ToLogs(cfg, c, xs, now)).value, y, m, now) == ToLog(cfg, c, y, |xs| + m, now)
    decreases |xs|
  {
    hide ToLog, Apply;
    if xs != [] {
      var n := |xs| - 1;
      var init, last := xs[..n], xs[n];
      ToLogsSplit(cfg, c, xs, now);
      var d := ApplyAll(cfg, c, ToLogs(cfg, c, init, now)).value;
      ToLogAfterAll(cfg, c, init, last, 1, now);
      ToLogAfter(cfg, d, last, 1, y, m, now);
      ToLogAfterAll(cfg, c, init, y, m + 1, now);
    }
  }

  lemma ToLogsSplit(cfg: Config, c: Contents, xs: seq<Input>, now: int)
    requires xs != []
    ensures var n := |xs| - 1;
      ToLogs(cfg, c, xs, now)[..n] == ToLogs(cfg, c, xs[..n], now)
      && ToLogs(cfg, c, xs, now)[n] == ToLog(cfg, c, xs[n], n + 1, now)
  {
  }

  /** Usage after a batch; what a next row then needs of the quotas. */
  lemma BatchAdmits(cfg: Config, c: Contents, ps: seq<Logged>)
    requires VecsNamed(c) && ps != []
    ensures var n := |ps| - 1;
      ApplyAll(cfg, c, ps[..n]).Some? ==>
        (AdmitsGrowth(cfg.quotas, UsageOf(c), TotalGrowth(ps)) <==>
          && AdmitsGrowth(cfg.quotas, UsageOf(c), TotalGrowth(ps[..n]))
          && AdmitsGrowth(cfg.quotas, UsageOf(ApplyAll(cfg, c, ps[..n]).value), GrowthOf(ps[n])))
    ensures AdmitsGrowth(cfg.quotas, UsageOf(c), TotalGrowth(ps)) ==>
      AdmitsGrowth(cfg.quotas, UsageOf(c), TotalGrowth(ps[..|ps| - 1]))
  {
    hide UsageOf, ApplyAll, VecsNamed, GrowthOf;
    var n := |ps| - 1;
    if ApplyAll(cfg, c, ps[..n]).Some? {
      ApplyAllUsage(cfg, c, ps[..n]);
    }
  }

  lemma BatchableStep(cfg: Config, c: Contents, ps: seq<Logged>)
    requires OneKind(ps) && ps != []
    ensures var n := |ps| - 1;
      && (ApplyAll(cfg, c, ps[..n]).Some? <==> Batchable(cfg, c, ps[..n]))
      && (Batchable(cfg, c, ps) <==>
            Batchable(cfg, c, ps[..n]) && Apply(cfg, ApplyAll(cfg, c, ps[..n]).value, ps[n]).Some?)
  {
    BatchIsIteration(cfg, c, ps);
    BatchIsIteration(cfg, c, ps[..|ps| - 1]);
  }

  lemma InputsStep(cfg: Config, xs: seq<Input>)
    requires xs != []
    ensures InputsOk(cfg, xs) <==> InputsOk(cfg, xs[..|xs| - 1]) && InputOk(cfg, xs[|xs| - 1])
  {
  }

  /** A batch is admitted if all but its last is, and then its last is. */
  lemma PrepareBatchStep(cfg: Config, c: Contents, xs: seq<Input>, now: int)
    requires WellFormed(cfg, c) && OneKindIn(xs) && xs != []
    ensures var n := |xs| - 1;
      var ps := ToLogs(cfg, c, xs, now);
      && ps[..n] == ToLogs(cfg, c, xs[..n], now)
      && (PrepareBatch(cfg, c, xs[..n], now).Some? ==> ApplyAll(cfg, c, ps[..n]).Some?)
      && (PrepareBatch(cfg, c, xs, now).Some? <==>
            && PrepareBatch(cfg, c, xs[..n], now).Some? && InputOk(cfg, xs[n])
            && var d := ApplyAll(cfg, c, ps[..n]).value;
               Apply(cfg, d, ps[n]).Some? && AdmitsGrowth(cfg.quotas, UsageOf(d), GrowthOf(ps[n])))
  {
    hide UsageOf, Batchable, Apply, ApplyAll, TotalGrowth, GrowthOf, AdmitsGrowth, InputsOk, InputOk, WellFormed;
    var ps := ToLogs(cfg, c, xs, now);
    VecsAreNamed(cfg, c);
    BatchableStep(cfg, c, ps);
    BatchAdmits(cfg, c, ps);
    InputsStep(cfg, xs);
  }

  /** After all but the last of a batch, the last would get the id it has in the batch. */
  lemma LastKeepsItsId(cfg: Config, c: Contents, xs: seq<Input>, now: int, d: Contents)
    requires OneKindIn(xs) && xs != []
    requires ApplyAll(cfg, c, ToLogs(cfg, c, xs[..|xs| - 1], now)) == Some(d)
    ensures ToLog(cfg, c, xs[|xs| - 1], |xs|, now) == ToLog(cfg, d, xs[|xs| - 1], 1, now)
  {
    var n := |xs| - 1;
    ToLogAfterAll(cfg, c, xs[..n], xs[n], 1, now);
  }

  lemma BatchKeepsCounters(cfg: Config, c: Contents, xs: seq<Input>, now: int, d: Contents)
    requires WellFormed(cfg, c) && OneKindIn(xs) && ApplyAll(cfg, c, ToLogs(cfg, c, xs, now)) == Some(d)
    ensures CountersOk(d)
  {
    hide UsageOf, KeysOk, ReferencesOk, VecsOk, ApplyAll, TotalGrowth;
    ApplyAllKeeps(cfg, c, ToLogs(cfg, c, xs, now));
  }

  lemma EmptyBatch(cfg: Config, c: Contents, now: int)
    ensures PrepareBatch(cfg, c, [], now) == Some([]) && ToLogs(cfg, c, [], now) == []
  {
  }

  /**
   A bulk write is the single writes in order, under consecutive ids: it fails if one of them
   would, and then changes nothing; quotas checked on the total admit each single step.
   */
  lemma {:induction false} BulkIsIteration(cfg: Config, c: Contents, xs: seq<Input>, now: int)
    requires WellFormed(cfg, c) && OneKindIn(xs)
    ensures MSet(cfg, c, xs, now) == AddAll(cfg, c, xs, now)
    ensures PrepareBatch(cfg, c, xs, now).Some? ==> ApplyAll(cfg, c, ToLogs(cfg, c, xs, now)).Some?
    decreases |xs|
  {
    hide UsageOf, WellFormed, CountersOk, Apply, Add, Batchable, InputsOk, InputOk, TotalGrowth, GrowthOf, AdmitsGrowth;
    if xs == [] {
      EmptyBatch(cfg, c, now);
    } else {
      var n := |xs| - 1;
      BulkIsIteration(cfg, c, xs[..n], now);
      PrepareBatchStep(cfg, c, xs, now);
      if PrepareBatch(cfg, c, xs[..n], now).Some? {
        var d := ApplyAll(cfg, c, ToLogs(cfg, c, xs[..n], now)).value;
        LastKeepsItsId(cfg, c, xs, now, d);
        BatchKeepsCounters(cfg, c, xs[..n], now, d);
        AddByParts(cfg, d, xs[n], now);
      }
    }
  }
}
