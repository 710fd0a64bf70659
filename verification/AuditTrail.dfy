/** The audit subscriber: rows buffered per transaction, collapsed to one per resource, written
    after the commit. Source: src/common/audit/financial-audit.subscriber.ts. */
module AuditTrail {
  import opened Options
  import opened AuditDiff

  datatype Action = Create | Update | Void | Delete

  /** A document's own columns as kept in a row, or none. */
  type Image = Option<seq<Part>>

  datatype Actor = Actor(
    userId: Option<string>, companyId: Option<string>, ipAddress: Option<string>, userAgent: Option<string>)

  datatype Row = Row(
    action: Action,
    area: string,
    resourceType: string,
    resourceId: Option<string>,
    companyId: Option<string>,
    before: Image,
    after: Image,
    actor: Actor
  )

  function Key(row: Row): string {
    row.resourceType + ":" + (if row.resourceId.Some? then row.resourceId.value else "null")
  }

  // ── Collapsing a transaction's rows ────────────────────────────────────────

  /** The rows among the first `n` of one resource, in order. */
  function Group(rows: seq<Row>, n: nat, key: string): seq<Row>
    requires n <= |rows|
  {
    if n == 0 then []
    else if Key(rows[n - 1]) == key then Group(rows, n - 1, key) + [rows[n - 1]]
    else Group(rows, n - 1, key)
  }

  /** The resources among the first `n` rows, in the order they first appear. */
  function Resources(rows: seq<Row>, n: nat): seq<string>
    requires n <= |rows|
  {
    if n == 0 then []
    else
      var keys := Resources(rows, n - 1);
      if Key(rows[n - 1]) in keys then keys else keys + [Key(rows[n - 1])]
  }

  /** Ends or voids the document. */
  predicate Closing(action: Action) {
    action == Delete || action == Void
  }

  /** The last of the rows 1.. of a group that ends or voids, or 0. */
  function LastClosing(g: seq<Row>): (k: nat)
    ensures k == 0 || (k < |g| && Closing(g[k].action))
    ensures forall i :: k < i < |g| ==> !Closing(g[i].action)
  {
    if |g| <= 1 then 0
    else if Closing(g[|g| - 1].action) then |g| - 1
    else LastClosing(g[..|g| - 1])
  }

  /** The last of the rows 1.. of a group that brings an after-image or deletes, or 0. */
  function LastTelling(g: seq<Row>): (k: nat)
    ensures k == 0 || (k < |g| && (g[k].action == Delete || g[k].after.Some?))
    ensures forall i :: k < i < |g| ==> g[i].action != Delete && g[i].after.None?
  {
    if |g| <= 1 then 0
    else if g[|g| - 1].action == Delete || g[|g| - 1].after.Some? then |g| - 1
    else LastTelling(g[..|g| - 1])
  }

  /** One row for a resource: who and what from the first, the before-image from the first, the
      after-image from the last row that tells it, and create before void or delete before the rest. */
  function Summary(g: seq<Row>): Row
    requires g != []
  {
    var k, m := LastClosing(g), LastTelling(g);
    g[0].(
      action := if g[0].action == Create then Create else g[k].action,
      after := if m > 0 && g[m].action == Delete then None else g[m].after)
  }

  lemma {:induction false} ResourcesShape(rows: seq<Row>, n: nat)
    requires n <= |rows|
    ensures forall key :: key in Resources(rows, n) <==> Group(rows, n, key) != []
    ensures forall i, j :: 0 <= i < j < |Resources(rows, n)| ==> Resources(rows, n)[i] != Resources(rows, n)[j]
  {
    if n > 0 {
      ResourcesShape(rows, n - 1);
    }
  }

  /** The summaries of the first `m` of some resources. */
  function Summaries(rows: seq<Row>, keys: seq<string>, m: nat): (out: seq<Row>)
    requires m <= |keys|
    requires forall key :: key in keys ==> Group(rows, |rows|, key) != []
    ensures |out| == m
    ensures forall i :: 0 <= i < m ==> out[i] == Summary(Group(rows, |rows|, keys[i]))
  {
    if m == 0 then []
    else Summaries(rows, keys, m - 1) + [Summary(Group(rows, |rows|, keys[m - 1]))]
  }

  /** One row per resource, in the order the resources first appear. */
  function Collapsed(rows: seq<Row>): seq<Row> {
    ResourcesShape(rows, |rows|);
    var keys := Resources(rows, |rows|);
    Summaries(rows, keys, |keys|)
  }

  /** What the loop does to the row it holds for a resource when another row of it comes. */
  function Merge(existing: Row, row: Row): Row {
    existing.(
      action := if existing.action != Create && Closing(row.action) then row.action else existing.action,
      after := if row.action == Delete then None else if row.after.Some? then row.after else existing.after)
  }

  lemma {:induction false} SummaryGrows(g: seq<Row>, row: Row)
    requires g != []
    ensures Summary(g + [row]) == Merge(Summary(g), row)
  {
    assert (g + [row])[..|g|] == g;
    assert LastClosing(g + [row]) == if Closing(row.action) then |g| else LastClosing(g);
    assert LastTelling(g + [row]) == if row.action == Delete || row.after.Some? then |g| else LastTelling(g);
  }

  function SummaryAt(rows: seq<Row>, n: nat, key: string): Option<Row>
    requires n <= |rows|
  {
    var g := Group(rows, n, key);
    if g == [] then None else Some(Summary(g))
  }

  lemma {:induction false} SummaryNext(rows: seq<Row>, i: nat, key: string)
    requires i < |rows|
    ensures var was, row := SummaryAt(rows, i, key), rows[i];
            SummaryAt(rows, i + 1, key) ==
              if key != Key(row) then was else if was.None? then Some(row) else Some(Merge(was.value, row))
  {
    var g, row := Group(rows, i, key), rows[i];
    if key == Key(row) {
      if g == [] {
        assert [] + [row] == [row];
      } else {
        SummaryGrows(g, row);
      }
    }
  }

  /** After `i` rows the map holds, per resource, the summary of that resource's rows. */
  ghost predicate Held(byResource: map<string, Row>, rows: seq<Row>, i: nat)
    requires i <= |rows|
  {
    forall key :: SummaryAt(rows, i, key) == if key in byResource then Some(byResource[key]) else None
  }

  lemma {:induction false} HeldNext(byResource: map<string, Row>, next: map<string, Row>, rows: seq<Row>, i: nat)
    requires i < |rows| && Held(byResource, rows, i)
    requires var key := Key(rows[i]);
             next == byResource[key := if key in byResource then Merge(byResource[key], rows[i]) else rows[i]]
    ensures Held(next, rows, i + 1)
  {
    forall key ensures SummaryAt(rows, i + 1, key) == if key in next then Some(next[key]) else None {
      SummaryNext(rows, i, key);
    }
  }

  lemma {:induction false} OrderNext(byResource: map<string, Row>, rows: seq<Row>, i: nat)
    requires i < |rows| && Held(byResource, rows, i)
    ensures var keys, key := Resources(rows, i), Key(rows[i]);
            Resources(rows, i + 1) == if key in byResource then keys else keys + [key]
  {
    ResourcesShape(rows, i);
    assert SummaryAt(rows, i, Key(rows[i])).None? <==> Key(rows[i]) !in byResource;
  }

  method Collapse(rows: seq<Row>) returns (out: seq<Row>)
    ensures out == Collapsed(rows)
  {
    var byResource: map<string, Row> := map[];
    var order: seq<string> := [];
    for i := 0 to |rows|
      invariant order == Resources(rows, i)
      invariant Held(byResource, rows, i)
    {
      var row := rows[i];
      var key := Key(row);
      ghost var was := byResource;
      OrderNext(byResource, rows, i);
      if key !in byResource {
        byResource, order := byResource[key := row], order + [key];
      } else {
        var existing := MergeInto(byResource[key], row);
        byResource := byResource[key := existing];
      }
      HeldNext(was, byResource, rows, i);
    }
    out := ListHeld(rows, byResource, order);
  }

  method MergeInto(held: Row, row: Row) returns (existing: Row)
    ensures existing == Merge(held, row)
  {
    existing := held.(after := if row.after.Some? then row.after else held.after);
    if existing.action != Create {
      if row.action == Delete || row.action == Void {
        existing := existing.(action := row.action);
      }
    }
    if row.action == Delete { existing := existing.(after := None); }
  }

  method ListHeld(rows: seq<Row>, byResource: map<string, Row>, order: seq<string>) returns (out: seq<Row>)
    requires order == Resources(rows, |rows|) && Held(byResource, rows, |rows|)
    ensures out == Collapsed(rows)
  {
    ResourcesShape(rows, |rows|);
    out := [];
    for i := 0 to |order|
      invariant out == Summaries(rows, order, i)
    {
      assert SummaryAt(rows, |rows|, order[i]).Some?;
      out := out + [byResource[order[i]]];
    }
  }

  // ── What a collapsed row says ──────────────────────────────────────────────

  lemma {:induction false} GroupMembers(rows: seq<Row>, n: nat, key: string)
    requires n <= |rows|
    ensures forall x :: x in Group(rows, n, key) <==> exists i :: 0 <= i < n && rows[i] == x && Key(x) == key
  {
    if n > 0 {
      GroupMembers(rows, n - 1, key);
    }
  }

  lemma {:induction false} GroupNone(rows: seq<Row>, n: nat, key: string)
    requires n <= |rows| && forall j :: 0 <= j < n ==> Key(rows[j]) != key
    ensures Group(rows, n, key) == []
  {
    if n > 0 {
      GroupNone(rows, n - 1, key);
    }
  }

  lemma {:induction false} GroupFirst(rows: seq<Row>, n: nat, i: nat)
    requires i < n <= |rows| && forall j :: 0 <= j < i ==> Key(rows[j]) != Key(rows[i])
    ensures Group(rows, i, Key(rows[i])) == []
    ensures Group(rows, n, Key(rows[i])) != [] && Group(rows, n, Key(rows[i]))[0] == rows[i]
  {
    GroupNone(rows, i, Key(rows[i]));
    if n > i + 1 {
      GroupFirst(rows, n - 1, i);
    }
  }

  lemma {:induction false} GroupLast(rows: seq<Row>, n: nat, l: nat)
    requires l < n <= |rows| && forall j :: l < j < n ==> Key(rows[j]) != Key(rows[l])
    ensures Group(rows, n, Key(rows[l])) == Group(rows, l, Key(rows[l])) + [rows[l]]
  {
    if n > l + 1 {
      GroupLast(rows, n - 1, l);
    }
  }

  /** A document is created at most first and deleted at most last, and every other change of it
      brings an after-image. */
  predicate Orderly(rows: seq<Row>) {
    && (forall i, j :: 0 <= i < j < |rows| && Key(rows[i]) == Key(rows[j]) ==>
          rows[i].action != Delete && rows[j].action != Create)
    && forall i :: 0 <= i < |rows| ==> (rows[i].after.None? <==> rows[i].action == Delete)
  }

  predicate OrderlyGroup(g: seq<Row>) {
    && (forall i, j :: 0 <= i < j < |g| ==> g[i].action != Delete && g[j].action != Create)
    && forall i :: 0 <= i < |g| ==> (g[i].after.None? <==> g[i].action == Delete)
  }

  lemma {:induction false} GroupOrderly(rows: seq<Row>, n: nat, key: string)
    requires n <= |rows| && Orderly(rows)
    ensures OrderlyGroup(Group(rows, n, key))
  {
    if n > 0 {
      GroupOrderly(rows, n - 1, key);
      GroupMembers(rows, n - 1, key);
      var g, row := Group(rows, n - 1, key), rows[n - 1];
      if Key(row) == key {
        forall i | 0 <= i < |g| ensures g[i].action != Delete && row.action != Create {
          assert g[i] in g;
          var k :| 0 <= k < n - 1 && rows[k] == g[i] && Key(g[i]) == key;
        }
        var h := g + [row];
        forall i, j | 0 <= i < j < |h| ensures h[i].action != Delete && h[j].action != Create {
          assert h[i] == g[i] && h[j] == if j < |g| then g[j] else row;
        }
        assert OrderlyGroup(h);
      }
    }
  }

  predicate AnyVoid(g: seq<Row>) {
    exists i :: 0 <= i < |g| && g[i].action == Void
  }

  lemma {:induction false} OrderlySummary(g: seq<Row>)
    requires g != [] && OrderlyGroup(g)
    ensures var c, last := Summary(g), g[|g| - 1];
            && c.before == g[0].before && c.after == last.after
            && c.action == if g[0].action == Create then Create
                           else if last.action == Delete then Delete
                           else if AnyVoid(g) then Void
                           else Update
  {
    var k, m := LastClosing(g), LastTelling(g);
    assert m == |g| - 1;
    if g[|g| - 1].action != Delete && AnyVoid(g) {
      var i :| 0 <= i < |g| && g[i].action == Void;
    }
  }

  predicate Voided(rows: seq<Row>, key: string) {
    exists j :: 0 <= j < |rows| && Key(rows[j]) == key && rows[j].action == Void
  }

  lemma {:induction false} VoidedInGroup(rows: seq<Row>, key: string)
    ensures AnyVoid(Group(rows, |rows|, key)) <==> Voided(rows, key)
  {
    var g := Group(rows, |rows|, key);
    GroupMembers(rows, |rows|, key);
    if AnyVoid(g) {
      var a :| 0 <= a < |g| && g[a].action == Void;
      assert g[a] in g;
    }
    if Voided(rows, key) {
      var j :| 0 <= j < |rows| && Key(rows[j]) == key && rows[j].action == Void;
      assert rows[j] in g;
    }
  }

  lemma {:induction false} CollapsedAt(rows: seq<Row>, p: nat)
    requires p < |Collapsed(rows)|
    ensures var keys, c := Resources(rows, |rows|), Collapsed(rows)[p];
            && |Collapsed(rows)| == |keys| && Key(c) == keys[p]
            && Group(rows, |rows|, Key(c)) != [] && c == Summary(Group(rows, |rows|, Key(c)))
            && Group(rows, |rows|, Key(c))[0] in rows && Key(Group(rows, |rows|, Key(c))[0]) == Key(c)
  {
    ResourcesShape(rows, |rows|);
    var keys := Resources(rows, |rows|);
    var g := Group(rows, |rows|, keys[p]);
    assert keys[p] in keys;
    GroupMembers(rows, |rows|, keys[p]);
    assert g[0] in g;
  }

  /** One row per resource: every collapsed row is of a resource of its own that the transaction
      touched, and every resource it touched has one. */
  lemma {:induction false} OneRowEach(rows: seq<Row>)
    ensures var out := Collapsed(rows);
            && (forall i, j :: 0 <= i < j < |out| ==> Key(out[i]) != Key(out[j]))
            && (forall c :: c in out ==> exists r :: r in rows && Key(r) == Key(c))
            && (forall r :: r in rows ==> exists c :: c in out && Key(c) == Key(r))
  {
    var out, keys := Collapsed(rows), Resources(rows, |rows|);
    ResourcesShape(rows, |rows|);
    forall p | 0 <= p < |out| ensures Key(out[p]) == keys[p] && exists r :: r in rows && Key(r) == Key(out[p]) {
      CollapsedAt(rows, p);
    }
    forall r | r in rows ensures exists c :: c in out && Key(c) == Key(r) {
      GroupMembers(rows, |rows|, Key(r));
      assert r in Group(rows, |rows|, Key(r));
      var p :| 0 <= p < |keys| && keys[p] == Key(r);
      assert out[p] in out;
    }
  }

  /** What the row written for a resource says, from its first row `i` and its last row `l`. */
  lemma {:induction false} CollapsedRow(rows: seq<Row>, i: nat, l: nat, c: Row)
    requires i <= l < |rows| && Key(rows[i]) == Key(rows[l])
    requires forall j :: 0 <= j < i || l < j < |rows| ==> Key(rows[j]) != Key(rows[i])
    requires Orderly(rows)
    requires c in Collapsed(rows) && Key(c) == Key(rows[i])
    ensures c.before == rows[i].before && c.after == rows[l].after
    ensures c.action == if rows[i].action == Create then Create
                        else if rows[l].action == Delete then Delete
                        else if Voided(rows, Key(c)) then Void
                        else Update
  {
    var key, n := Key(rows[i]), |rows|;
    GroupFirst(rows, n, i);
    GroupLast(rows, n, l);
    GroupOrderly(rows, n, key);
    OrderlySummary(Group(rows, n, key));
    VoidedInGroup(rows, key);
    var p :| 0 <= p < |Collapsed(rows)| && Collapsed(rows)[p] == c;
    CollapsedAt(rows, p);
  }

  /** A document created and deleted in one transaction leaves a create that shows nothing. */
  lemma {:induction false} CreatedAndDeleted(created: Row, deleted: Row)
    requires created.action == Create && deleted.action == Delete && Key(created) == Key(deleted)
    requires created.before.None? && created.after.Some? && deleted.after.None?
    ensures var out := Collapsed([created, deleted]);
            |out| == 1 && out[0].action == Create && out[0].before.None? && out[0].after.None?
  {
    var rows := [created, deleted];
    OneResource(rows);
    CollapsedAt(rows, 0);
    CollapsedRow(rows, 0, 1, Collapsed(rows)[0]);
  }

  lemma {:induction false} OneResource(rows: seq<Row>)
    requires |rows| == 2 && Key(rows[0]) == Key(rows[1])
    ensures |Collapsed(rows)| == 1
  {
    assert Resources(rows, 0) == [];
    assert Resources(rows, 1) == [Key(rows[0])];
  }

  // ── Which rows are worth writing ───────────────────────────────────────────

  datatype Watched = Watched(
    area: string, resourceType: string, ignored: seq<string>, json: seq<string>, numeric: seq<string>)

  /** The settings by entity and by resource type, and how numbers are read. */
  datatype Settings = Settings(targets: map<string, Watched>, resources: map<string, Watched>, read: Reader)

  predicate Proper(row: Row) {
    && (row.before.Some? ==> WellFormed(Obj(row.before.value)))
    && (row.after.Some? ==> WellFormed(Obj(row.after.value)))
  }

  function PartsOf(image: Image): seq<Part> {
    if image.Some? then image.value else []
  }

  function ColumnAt(image: Image, key: string): Json {
    var ps := PartsOf(image);
    var i := Find(ps, |ps|, key);
    if i < |ps| then ps[i].value else Undefined
  }

  /** A column of an image is its part of that name, and undefined where there is none. */
  lemma {:induction false} ColumnAtIs(image: Image, key: string)
    requires image.Some? ==> Distinct(image.value)
    ensures forall i :: image.Some? && 0 <= i < |image.value| && image.value[i].key == key ==>
              ColumnAt(image, key) == image.value[i].value
    ensures image.None? || (forall i :: 0 <= i < |image.value| ==> image.value[i].key != key) ==>
              ColumnAt(image, key) == Undefined
  {}

  predicate Differs(row: Row, w: Watched, key: string, read: Reader) {
    key !in w.ignored
    && !SameAuditValue(ColumnAt(row.before, key), ColumnAt(row.after, key), key in w.numeric, read)
  }

  predicate Meaningful(row: Row, settings: Settings) {
    || row.action != Update
    || row.resourceType !in settings.resources
    || settings.resources[row.resourceType].ignored == []
    || var w := settings.resources[row.resourceType];
       (exists i :: 0 <= i < |PartsOf(row.before)| && Differs(row, w, PartsOf(row.before)[i].key, settings.read))
       || (exists i :: 0 <= i < |PartsOf(row.after)| && Differs(row, w, PartsOf(row.after)[i].key, settings.read))
  }

  /** An update of a watched record goes unrecorded exactly when every column, side effects aside,
      reads the same before and after. */
  lemma {:induction false} UnrecordedUpdate(row: Row, settings: Settings)
    requires Proper(row) && row.action == Update && row.resourceType in settings.resources
    requires settings.resources[row.resourceType].ignored != []
    ensures var w := settings.resources[row.resourceType];
            !Meaningful(row, settings) <==>
              forall key :: key !in w.ignored ==>
                Alike(AsRead(ColumnAt(row.before, key), key in w.numeric, settings.read),
                      AsRead(ColumnAt(row.after, key), key in w.numeric, settings.read))
  {
    var w, b, a := settings.resources[row.resourceType], PartsOf(row.before), PartsOf(row.after);
    forall key
      ensures Differs(row, w, key, settings.read) <==>
                (key !in w.ignored
                 && !Alike(AsRead(ColumnAt(row.before, key), key in w.numeric, settings.read),
                           AsRead(ColumnAt(row.after, key), key in w.numeric, settings.read)))
    {
      SameIsAlike(ColumnAt(row.before, key), ColumnAt(row.after, key), key in w.numeric, settings.read);
    }
    forall key | Differs(row, w, key, settings.read) ensures Meaningful(row, settings) {
      var i, j := Find(b, |b|, key), Find(a, |a|, key);
      assert Alike(Undefined, Undefined);
      if i < |b| {
        assert Differs(row, w, b[i].key, settings.read);
      } else if j < |a| {
        assert Differs(row, w, a[j].key, settings.read);
      }
    }
  }

  method IsMeaningful(row: Row, settings: Settings) returns (r: bool)
    ensures r == Meaningful(row, settings)
  {
    if row.action != Update { return true; }
    if row.resourceType !in settings.resources { return true; }
    var w := settings.resources[row.resourceType];
    if w.ignored == [] { return true; }
    var before, after := PartsOf(row.before), PartsOf(row.after);
    for i := 0 to |before|
      invariant forall k :: 0 <= k < i ==> !Differs(row, w, before[k].key, settings.read)
    {
      if Differs(row, w, before[i].key, settings.read) { return true; }
    }
    for i := 0 to |after|
      invariant forall k :: 0 <= k < i ==> !Differs(row, w, after[k].key, settings.read)
    {
      if Differs(row, w, after[i].key, settings.read) { return true; }
    }
    return false;
  }

  /** Rows with a company, an update among them only if it changed something. */
  function Worth(rows: seq<Row>, n: nat, settings: Settings): seq<Row>
    requires n <= |rows|
  {
    if n == 0 then []
    else
      var rest, row := Worth(rows, n - 1, settings), rows[n - 1];
      if row.companyId.Some? && row.companyId.value != "" && Meaningful(row, settings) then rest + [row] else rest
  }

  /** What a flush of some rows adds to the trail. */
  function Recorded(rows: seq<Row>, settings: Settings): seq<Row> {
    Worth(Collapsed(rows), |Collapsed(rows)|, settings)
  }

  predicate HasCompany(row: Row) {
    row.companyId.Some? && row.companyId.value != ""
  }

  /** Some column, side effects aside, does not read the same before and after. */
  ghost predicate ChangesColumn(row: Row, w: Watched, read: Reader) {
    exists key :: key !in w.ignored
      && !Alike(AsRead(ColumnAt(row.before, key), key in w.numeric, read),
                AsRead(ColumnAt(row.after, key), key in w.numeric, read))
  }

  lemma {:induction false} WorthMembers(rows: seq<Row>, n: nat, settings: Settings, c: Row)
    requires n <= |rows|
    ensures c in Worth(rows, n, settings) <==> c in rows[..n] && HasCompany(c) && Meaningful(c, settings)
  {
    if n > 0 {
      WorthMembers(rows, n - 1, settings, c);
      assert rows[..n] == rows[..n - 1] + [rows[n - 1]];
    }
  }

  /** Of the collapsed rows those with a company are recorded, but for an update of a watched record that
      changed nothing besides its side effects. */
  lemma {:induction false} RecordedExactlyWhen(rows: seq<Row>, settings: Settings, c: Row)
    requires Proper(c)
    ensures c in Recorded(rows, settings) <==>
              && c in Collapsed(rows) && HasCompany(c)
              && (c.action == Update && c.resourceType in settings.resources
                  && settings.resources[c.resourceType].ignored != [] ==>
                    ChangesColumn(c, settings.resources[c.resourceType], settings.read))
  {
    var out := Collapsed(rows);
    WorthMembers(out, |out|, settings, c);
    assert out[..|out|] == out;
    if c.action == Update && c.resourceType in settings.resources && settings.resources[c.resourceType].ignored != [] {
      UnrecordedUpdate(c, settings);
    }
  }

  /** A change on its own is recorded as it is, or not at all. */
  lemma {:induction false} RecordedAlone(row: Row, settings: Settings)
    ensures Recorded([row], settings) == if HasCompany(row) && Meaningful(row, settings) then [row] else []
    ensures row.action != Update ==> Recorded([row], settings) == if HasCompany(row) then [row] else []
  {
    var rows := [row];
    assert Resources(rows, 0) == [] && Group(rows, 0, Key(row)) == [];
    assert Resources(rows, 1) == [] + [Key(row)] && Group(rows, 1, Key(row)) == [] + [row];
    assert Collapsed(rows) == [row];
    assert Worth([row], 0, settings) == [];
  }

  // ── The buffer, under any interleaving of transactions ─────────────────────

  /** A row captured inside or outside a transaction, the end of one, and a write to a table
      nobody watches. */
  datatype Event = Write(runner: nat, row: Row) | Alone(row: Row) | Commit(runner: nat) | Rollback(runner: nat) | Unwatched

  /** What a flush writes for the rows it is given. */
  type Recorder = seq<Row> -> seq<Row>

  datatype State = State(pending: map<nat, seq<Row>>, trail: seq<Row>)

  function Buffered(s: State, runner: nat): seq<Row> {
    if runner in s.pending then s.pending[runner] else []
  }

  function Step(s: State, e: Event, record: Recorder): State {
    match e
    case Write(runner, row) => s.(pending := s.pending[runner := Buffered(s, runner) + [row]])
    case Alone(row) => s.(trail := s.trail + record([row]))
    case Commit(runner) =>
      State(s.pending - {runner}, s.trail + record(Buffered(s, runner)))
    case Rollback(runner) => s.(pending := s.pending - {runner})
    case Unwatched => s
  }

  function Run(events: seq<Event>, n: nat, record: Recorder): State
    requires n <= |events|
  {
    if n == 0 then State(map[], []) else Step(Run(events, n - 1, record), events[n - 1], record)
  }

  /** The rows the runner's open transaction has written: back to its last commit or rollback. */
  function OwnRows(events: seq<Event>, n: nat, runner: nat): (rows: seq<Row>)
    requires n <= |events|
  {
    if n == 0 then []
    else
      match events[n - 1]
      case Write(r, row) => if r == runner then OwnRows(events, n - 1, runner) + [row] else OwnRows(events, n - 1, runner)
      case Alone(_) => OwnRows(events, n - 1, runner)
      case Commit(r) => if r == runner then [] else OwnRows(events, n - 1, runner)
      case Rollback(r) => if r == runner then [] else OwnRows(events, n - 1, runner)
      case Unwatched => OwnRows(events, n - 1, runner)
  }

  /** What one event should add: a commit the record of that transaction's own rows, a write
      outside any transaction its own record, anything else nothing. */
  function Adds(events: seq<Event>, i: nat, record: Recorder): seq<Row>
    requires i < |events|
  {
    match events[i]
    case Alone(row) => record([row])
    case Commit(r) => record(OwnRows(events, i, r))
    case _ => []
  }

  /** What the trail should hold after the first `n` events. */
  function Deserved(events: seq<Event>, n: nat, record: Recorder): seq<Row>
    requires n <= |events|
  {
    if n == 0 then [] else Deserved(events, n - 1, record) + Adds(events, n - 1, record)
  }

  lemma {:induction false} BufferIsOwn(events: seq<Event>, n: nat, runner: nat, record: Recorder)
    requires n <= |events|
    ensures Buffered(Run(events, n, record), runner) == OwnRows(events, n, runner)
  {
    if n > 0 {
      BufferIsOwn(events, n - 1, runner, record);
      if events[n - 1].Write? && events[n - 1].runner == runner {
        assert Buffered(Run(events, n, record), runner) == OwnRows(events, n - 1, runner) + [events[n - 1].row];
      }
    }
  }

  /** However transactions interleave, the trail holds what the committed ones deserve. */
  lemma {:induction false} TrailIsDeserved(events: seq<Event>, n: nat, record: Recorder)
    requires n <= |events|
    ensures Run(events, n, record).trail == Deserved(events, n, record)
  {
    if n > 0 {
      TrailIsDeserved(events, n - 1, record);
      if events[n - 1].Commit? {
        BufferIsOwn(events, n - 1, events[n - 1].runner, record);
      }
    }
  }

  /** `quiet` is the same history, but what the runner's transaction wrote from `from` until it
      rolled back at `to` was not watched. */
  ghost predicate Silenced(events: seq<Event>, quiet: seq<Event>, from: nat, to: nat, runner: nat) {
    && from <= to < |events| == |quiet|
    && events[to] == Rollback(runner)
    && (forall i :: from <= i < to ==> events[i] != Commit(runner))
    && forall i :: 0 <= i < |events| ==>
         quiet[i] == if from <= i < to && events[i].Write? && events[i].runner == runner then Unwatched else events[i]
  }

  lemma {:induction false} OwnRowsSilenced(events: seq<Event>, quiet: seq<Event>, from: nat, to: nat,
      runner: nat, n: nat, r: nat)
    requires Silenced(events, quiet, from, to, runner)
    requires n <= |events| && (r != runner || n <= from || n > to)
    ensures OwnRows(quiet, n, r) == OwnRows(events, n, r)
  {
    if n > 0 {
      assert quiet[n - 1] == events[n - 1] || (quiet[n - 1] == Unwatched && events[n - 1].Write? && r != runner);
      if r == runner && n - 1 == to {
      } else {
        OwnRowsSilenced(events, quiet, from, to, runner, n - 1, r);
      }
    }
  }

  lemma {:induction false} AddsSilenced(events: seq<Event>, quiet: seq<Event>, from: nat, to: nat, runner: nat,
      i: nat, record: Recorder)
    requires Silenced(events, quiet, from, to, runner)
    requires i < |events|
    ensures Adds(quiet, i, record) == Adds(events, i, record)
  {
    if events[i].Commit? {
      OwnRowsSilenced(events, quiet, from, to, runner, i, events[i].runner);
    }
  }

  lemma {:induction false} DeservedSilenced(events: seq<Event>, quiet: seq<Event>, from: nat, to: nat,
      runner: nat, n: nat, record: Recorder)
    requires Silenced(events, quiet, from, to, runner)
    requires n <= |events|
    ensures Deserved(quiet, n, record) == Deserved(events, n, record)
  {
    if n > 0 {
      DeservedSilenced(events, quiet, from, to, runner, n - 1, record);
      AddsSilenced(events, quiet, from, to, runner, n - 1, record);
    }
  }

  /** A transaction that rolls back leaves nothing in the trail. */
  lemma {:induction false} RolledBackLeavesNothing(events: seq<Event>, quiet: seq<Event>, from: nat, to: nat,
      runner: nat, n: nat, record: Recorder)
    requires Silenced(events, quiet, from, to, runner)
    requires n <= |events|
    ensures Run(quiet, n, record).trail == Run(events, n, record).trail
  {
    TrailIsDeserved(events, n, record);
    TrailIsDeserved(quiet, n, record);
    DeservedSilenced(events, quiet, from, to, runner, n, record);
  }

  // ── The subscriber ─────────────────────────────────────────────────────────

  /** A column of a document as loaded; a date is told apart from its text. */
  datatype Cell = Plain(value: Json) | Moment(iso: string)

  datatype Column = Column(name: string, cell: Cell)

  /** A document's own columns: relations and arrays are dropped, JSON columns kept. */
  function Columns(entity: seq<Column>, n: nat, json: seq<string>): seq<Part>
    requires n <= |entity|
  {
    if n == 0 then []
    else
      var rest, name := Columns(entity, n - 1, json), entity[n - 1].name;
      match entity[n - 1].cell
      case Moment(iso) => rest + [Part(name, Str(iso))]
      case Plain(v) =>
        match v
        case Null => rest + [Part(name, Null)]
        case Undefined => rest + [Part(name, Null)]
        case Obj(_) => if name in json then rest + [Part(name, Copied(v))] else rest
        case Arr(_) => rest
        case _ => rest + [Part(name, v)]
  }

  function Snapshot(entity: Option<seq<Column>>, json: seq<string>): Image {
    if entity.None? then None
    else
      var ps := Columns(entity.value, |entity.value|, json);
      if ps == [] then None else Some(ps)
  }

  /** A column's text, when it holds one. */
  function TextAt(entity: Option<seq<Column>>, name: string): Option<string> {
    if entity.None? then None else TextAmong(entity.value, |entity.value|, name)
  }

  function TextAmong(entity: seq<Column>, n: nat, name: string): Option<string>
    requires n <= |entity|
  {
    if n == 0 then None
    else if entity[n - 1].name == name then
      match entity[n - 1].cell
      case Plain(Str(s)) => Some(s)
      case _ => None
    else TextAmong(entity, n - 1, name)
  }

  /** The row captured for a change of a watched entity. */
  function RowFor(w: Watched, action: Action, before: Option<seq<Column>>, after: Option<seq<Column>>,
      actor: Actor): Row {
    var source := if after.Some? then after else before;
    var company := TextAt(source, "companyId");
    Row(action, w.area, w.resourceType, TextAt(source, "id"),
        if company.Some? then company else actor.companyId,
        Snapshot(before, w.json), Snapshot(after, w.json), actor)
  }

  /** The change a save makes: a void when the status becomes void. */
  function ActionOf(before: Option<seq<Column>>, after: Option<seq<Column>>): Action {
    if TextAt(after, "status") == Some("void") && TextAt(before, "status") != Some("void") then Void else Update
  }

  // ── What a captured row tells ──────────────────────────────────────────────

  /** A relation or an array: no image keeps it. */
  predicate LeftOut(c: Column, json: seq<string>) {
    c.cell.Plain? && (c.cell.value.Arr? || (c.cell.value.Obj? && c.name !in json))
  }

  /** The part of an image that stands for a column: a date as its text, nothing as null, an object as
      its copy, anything else as it is. */
  predicate StandsFor(p: Part, c: Column) {
    && p.key == c.name
    && match c.cell
       case Moment(iso) => p.value == Str(iso)
       case Plain(v) =>
         if v == Null || v == Undefined then p.value == Null
         else if v.Obj? then p.value == Copied(v)
         else p.value == v
  }

  /** The parts stand for the kept columns among the first `n`, each at its place. */
  ghost predicate InPlaces(parts: seq<Part>, cs: seq<Column>, n: nat, json: seq<string>, places: seq<nat>)
    requires n <= |cs|
  {
    && |places| == |parts|
    && (forall k :: 0 <= k < |places| ==>
          places[k] < n && !LeftOut(cs[places[k]], json) && StandsFor(parts[k], cs[places[k]]))
    && (forall j, k :: 0 <= j < k < |places| ==> places[j] < places[k])
    && (forall i :: 0 <= i < n && !LeftOut(cs[i], json) ==> i in places)
  }

  /** The image of an entity has its own columns in their order, and there is none without any. */
  ghost predicate IsImage(image: Image, entity: Option<seq<Column>>, json: seq<string>) {
    match entity
    case None => image == None
    case Some(cs) =>
      && (image == None <==> forall i :: 0 <= i < |cs| ==> LeftOut(cs[i], json))
      && (image.Some? ==> exists places :: InPlaces(image.value, cs, |cs|, json, places))
  }

  lemma {:induction false} ColumnsInPlaces(cs: seq<Column>, n: nat, json: seq<string>) returns (places: seq<nat>)
    requires n <= |cs|
    ensures InPlaces(Columns(cs, n, json), cs, n, json, places)
  {
    if n == 0 {
      places := [];
    } else {
      places := ColumnsInPlaces(cs, n - 1, json);
      ColumnsNext(cs, n, json);
      if !LeftOut(cs[n - 1], json) {
        var parts := Columns(cs, n - 1, json);
        PlaceNext(parts, Columns(cs, n, json)[|parts|], cs, n, json, places);
        places := places + [n - 1];
      }
    }
  }

  lemma {:induction false} ColumnsNext(cs: seq<Column>, n: nat, json: seq<string>)
    requires 0 < n <= |cs|
    ensures var rest, all, c := Columns(cs, n - 1, json), Columns(cs, n, json), cs[n - 1];
            if LeftOut(c, json) then all == rest
            else |all| == |rest| + 1 && all == rest + [all[|rest|]] && StandsFor(all[|rest|], c)
  {}

  lemma {:induction false} AllLeftOut(cs: seq<Column>, n: nat, json: seq<string>)
    requires n <= |cs| && forall i :: 0 <= i < n ==> LeftOut(cs[i], json)
    ensures Columns(cs, n, json) == []
  {
    if n > 0 {
      AllLeftOut(cs, n - 1, json);
    }
  }

  lemma {:induction false} PlaceNext(parts: seq<Part>, p: Part, cs: seq<Column>, n: nat, json: seq<string>,
      places: seq<nat>)
    requires 0 < n <= |cs| && InPlaces(parts, cs, n - 1, json, places)
    requires !LeftOut(cs[n - 1], json) && StandsFor(p, cs[n - 1])
    ensures InPlaces(parts + [p], cs, n, json, places + [n - 1])
  {
    var next := places + [n - 1];
    forall i | 0 <= i < n && !LeftOut(cs[i], json) ensures i in next {
      if i < n - 1 {
        assert i in places;
      } else {
        assert next[|places|] == i;
      }
    }
  }

  lemma {:induction false} SnapshotIsImage(entity: Option<seq<Column>>, json: seq<string>)
    ensures IsImage(Snapshot(entity, json), entity, json)
  {
    if entity.Some? {
      var cs := entity.value;
      var places := ColumnsInPlaces(cs, |cs|, json);
      if i :| 0 <= i < |cs| && !LeftOut(cs[i], json) {
        assert i in places;
      } else {
        AllLeftOut(cs, |cs|, json);
      }
    }
  }

  /** The entity has a column of that name holding that text. */
  predicate Says(entity: Option<seq<Column>>, name: string, text: string) {
    entity.Some? && Column(name, Plain(Str(text))) in entity.value
  }

  /** An object has each property once. */
  predicate NamedOnce(entity: Option<seq<Column>>) {
    entity.Some? ==> forall i, j :: 0 <= i < j < |entity.value| ==> entity.value[i].name != entity.value[j].name
  }

  lemma {:induction false} TextAmongSays(cs: seq<Column>, n: nat, name: string, text: string)
    requires n <= |cs| && forall i, j :: 0 <= i < j < |cs| ==> cs[i].name != cs[j].name
    ensures TextAmong(cs, n, name) == Some(text) <==> Column(name, Plain(Str(text))) in cs[..n]
  {
    if n > 0 {
      TextAmongSays(cs, n - 1, name, text);
      assert cs[..n] == cs[..n - 1] + [cs[n - 1]];
    }
  }

  lemma {:induction false} TextAtSays(entity: Option<seq<Column>>, name: string, text: string)
    requires NamedOnce(entity)
    ensures TextAt(entity, name) == Some(text) <==> Says(entity, name, text)
  {
    if entity.Some? {
      TextAmongSays(entity.value, |entity.value|, name, text);
      assert entity.value[..|entity.value|] == entity.value;
    }
  }

  /** The row of a change: what was changed by the settings, which one and whose by the new state, or by
      the old one where there is no new, the company by the actor where neither says; each image from
      its own state. */
  ghost predicate Tells(row: Row, w: Watched, before: Option<seq<Column>>, after: Option<seq<Column>>, actor: Actor) {
    var source := if after.Some? then after else before;
    && row.area == w.area && row.resourceType == w.resourceType && row.actor == actor
    && IsImage(row.before, before, w.json) && IsImage(row.after, after, w.json)
    && (forall id :: row.resourceId == Some(id) <==> Says(source, "id", id))
    && (forall c :: Says(source, "companyId", c) ==> row.companyId == Some(c))
    && ((forall c :: !Says(source, "companyId", c)) ==> row.companyId == actor.companyId)
  }

  lemma {:induction false} RowForTells(w: Watched, action: Action, before: Option<seq<Column>>,
      after: Option<seq<Column>>, actor: Actor)
    requires NamedOnce(before) && NamedOnce(after)
    ensures var row := RowFor(w, action, before, after, actor); row.action == action && Tells(row, w, before, after, actor)
  {
    var source := if after.Some? then after else before;
    SnapshotIsImage(before, w.json);
    SnapshotIsImage(after, w.json);
    forall text
      ensures TextAt(source, "id") == Some(text) <==> Says(source, "id", text)
      ensures TextAt(source, "companyId") == Some(text) <==> Says(source, "companyId", text)
    {
      TextAtSays(source, "id", text);
      TextAtSays(source, "companyId", text);
    }
    var company := TextAt(source, "companyId");
    if company.Some? {
      assert Says(source, "companyId", company.value);
    }
  }

  /** A save voids a document exactly when the status says void and did not. */
  lemma {:induction false} SaveVoidsExactlyWhen(before: Option<seq<Column>>, after: Option<seq<Column>>)
    requires NamedOnce(before) && NamedOnce(after)
    ensures ActionOf(before, after) == if Says(after, "status", "void") && !Says(before, "status", "void") then Void
                                       else Update
  {
    TextAtSays(before, "status", "void");
    TextAtSays(after, "status", "void");
  }

  lemma {:induction false} WrittenAndCommitted(s: State, runner: nat, row: Row, record: Recorder)
    requires runner !in s.pending
    ensures Step(Step(s, Write(runner, row), record), Commit(runner), record) == State(s.pending, s.trail + record([row]))
  {
    assert [] + [row] == [row];
    assert s.pending[runner := [row]] - {runner} == s.pending;
  }

  class FinancialAuditSubscriber {
    const settings: Settings
    var pending: map<nat, seq<Row>>
    var trail: seq<Row>

    constructor (settings: Settings)
      ensures this.settings == settings && Now() == Run([], 0, Recorder())
    {
      this.settings, pending, trail := settings, map[], [];
    }

    ghost function Now(): State
      reads this
    {
      State(pending, trail)
    }

    /** A flush writes the rows worth recording among the collapsed ones. */
    ghost function Recorder(): Recorder {
      (rows: seq<Row>) => Recorded(rows, settings)
    }

    method Flush(rows: seq<Row>)
      modifies `trail
      ensures trail == old(trail) + Recorded(rows, settings)
    {
      var collapsed := Collapse(rows);
      var kept: seq<Row> := [];
      for i := 0 to |collapsed|
        invariant kept == Worth(collapsed, i, settings)
        invariant trail == old(trail)
      {
        var row := collapsed[i];
        if row.companyId.Some? && row.companyId.value != "" {
          var meaningful := IsMeaningful(row, settings);
          if meaningful { kept := kept + [row]; }
        }
      }
      if kept == [] { return; }
      trail := trail + kept;
    }

    method Capture(runner: nat, inTransaction: bool, target: string, action: Action,
        before: Option<seq<Column>>, after: Option<seq<Column>>, actor: Actor)
      modifies this
      ensures Now() == Step(old(Now()), Captured(runner, inTransaction, target, action, before, after, actor), Recorder())
      ensures target !in settings.targets ==> pending == old(pending) && trail == old(trail)
      ensures inTransaction ==> trail == old(trail)
      ensures !inTransaction ==> pending == old(pending)
    {
      if target !in settings.targets { return; }
      var row := RowFor(settings.targets[target], action, before, after, actor);
      if !inTransaction {
        Flush([row]);
        return;
      }
      pending := pending[runner := (if runner in pending then pending[runner] else []) + [row]];
    }

    /** The event a change of some entity is to the buffer. */
    function Captured(runner: nat, inTransaction: bool, target: string, action: Action,
        before: Option<seq<Column>>, after: Option<seq<Column>>, actor: Actor): Event {
      if target !in settings.targets then Unwatched
      else
        var row := RowFor(settings.targets[target], action, before, after, actor);
        if inTransaction then Write(runner, row) else Alone(row)
    }

    method AfterInsert(runner: nat, inTransaction: bool, target: string, entity: Option<seq<Column>>, actor: Actor)
      modifies this
      ensures Now() == Step(old(Now()), Captured(runner, inTransaction, target, Create, None, entity, actor), Recorder())
      ensures target !in settings.targets ==> pending == old(pending) && trail == old(trail)
      ensures inTransaction ==> trail == old(trail)
      ensures !inTransaction ==> pending == old(pending)
    {
      Capture(runner, inTransaction, target, Create, None, entity, actor);
    }

    method AfterUpdate(runner: nat, inTransaction: bool, target: string, before: Option<seq<Column>>,
        after: Option<seq<Column>>, actor: Actor)
      modifies this
      ensures var e := Captured(runner, inTransaction, target, ActionOf(before, after), before, after, actor);
              Now() == Step(old(Now()), e, Recorder())
      ensures target !in settings.targets ==> pending == old(pending) && trail == old(trail)
      ensures inTransaction ==> trail == old(trail)
      ensures !inTransaction ==> pending == old(pending)
    {
      var action := ActionOf(before, after);
      Capture(runner, inTransaction, target, action, before, after, actor);
    }

    method AfterRemove(runner: nat, inTransaction: bool, target: string, stored: Option<seq<Column>>,
        given: Option<seq<Column>>, actor: Actor)
      modifies this
      ensures var before := if stored.Some? then stored else given;
              Now() == Step(old(Now()), Captured(runner, inTransaction, target, Delete, before, None, actor), Recorder())
      ensures target !in settings.targets ==> pending == old(pending) && trail == old(trail)
      ensures inTransaction ==> trail == old(trail)
      ensures !inTransaction ==> pending == old(pending)
    {
      Capture(runner, inTransaction, target, Delete, if stored.Some? then stored else given, None, actor);
    }

    method AfterTransactionCommit(runner: nat)
      modifies this
      ensures Now() == Step(old(Now()), Commit(runner), Recorder())
    {
      var rows := if runner in pending then pending[runner] else [];
      pending := pending - {runner};
      if rows != [] {
        Flush(rows);
      } else {
        assert Recorded([], settings) == [];
      }
    }

    method AfterTransactionRollback(runner: nat)
      modifies `pending
      ensures Now() == Step(old(Now()), Rollback(runner), Recorder())
    {
      pending := pending - {runner};
    }

    /** A created document is recorded with its new state alone, if it has a company. */
    method InsertAndCommit(runner: nat, inTransaction: bool, target: string, entity: Option<seq<Column>>, actor: Actor)
      returns (ghost row: Row)
      requires target in settings.targets && NamedOnce(entity) && runner !in pending
      modifies this
      ensures row.action == Create && Tells(row, settings.targets[target], None, entity, actor)
      ensures trail == old(trail) + if HasCompany(row) then [row] else []
      ensures pending == old(pending)
    {
      row := RowFor(settings.targets[target], Create, None, entity, actor);
      RowForTells(settings.targets[target], Create, None, entity, actor);
      RecordedAlone(row, settings);
      WrittenAndCommitted(Now(), runner, row, Recorder());
      AfterInsert(runner, inTransaction, target, entity, actor);
      if inTransaction { AfterTransactionCommit(runner); }
    }

    /** A saved document is recorded with both states, as a void when it became void and otherwise if
        something changed. */
    method UpdateAndCommit(runner: nat, inTransaction: bool, target: string, before: Option<seq<Column>>,
        after: Option<seq<Column>>, actor: Actor)
      returns (ghost row: Row)
      requires target in settings.targets && NamedOnce(before) && NamedOnce(after) && runner !in pending
      modifies this
      ensures Tells(row, settings.targets[target], before, after, actor)
      ensures row.action == (if Says(after, "status", "void") && !Says(before, "status", "void") then Void else Update)
      ensures trail == old(trail) + if HasCompany(row) && (row.action == Void || Meaningful(row, settings)) then [row]
                                         else []
      ensures pending == old(pending)
    {
      row := RowFor(settings.targets[target], ActionOf(before, after), before, after, actor);
      RowForTells(settings.targets[target], ActionOf(before, after), before, after, actor);
      SaveVoidsExactlyWhen(before, after);
      RecordedAlone(row, settings);
      WrittenAndCommitted(Now(), runner, row, Recorder());
      AfterUpdate(runner, inTransaction, target, before, after, actor);
      if inTransaction { AfterTransactionCommit(runner); }
    }

    /** A removed document is recorded with its old state alone. */
    method RemoveAndCommit(runner: nat, inTransaction: bool, target: string, stored: Option<seq<Column>>,
        given: Option<seq<Column>>, actor: Actor)
      returns (ghost row: Row)
      requires target in settings.targets && NamedOnce(stored) && NamedOnce(given) && runner !in pending
      modifies this
      ensures row.action == Delete && Tells(row, settings.targets[target], if stored.Some? then stored else given, None, actor)
      ensures trail == old(trail) + if HasCompany(row) then [row] else []
      ensures pending == old(pending)
    {
      ghost var before := if stored.Some? then stored else given;
      row := RowFor(settings.targets[target], Delete, before, None, actor);
      RowForTells(settings.targets[target], Delete, before, None, actor);
      RecordedAlone(row, settings);
      WrittenAndCommitted(Now(), runner, row, Recorder());
      AfterRemove(runner, inTransaction, target, stored, given, actor);
      if inTransaction { AfterTransactionCommit(runner); }
    }
  }
}
