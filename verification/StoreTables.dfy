/** What every deduplicating insert of the research store does to its table, whatever the record type and the
    duplicate test: records are checked and appended one by one, duplicates are skipped, ids count up. */
module StoreTables {

  datatype Stored<R> = Stored(record: R, id: int)

  /** `threw` says that a record failed the source check; the records before it are already inserted. */
  datatype Outcome<R> = Outcome(table: seq<Stored<R>>, inserted: int, skipped: int, threw: bool)

  predicate Clashing<R(!new)>(t: seq<Stored<R>>, r: R, clash: (R, R) -> bool) {
    exists i :: 0 <= i < |t| && clash(t[i].record, r)
  }

  function InsertOne<R(!new)>(o: Outcome<R>, r: R, ok: R -> bool, clash: (R, R) -> bool): Outcome<R> {
    if o.threw then o
    else if !ok(r) then o.(threw := true)
    else if Clashing(o.table, r, clash) then o.(skipped := o.skipped + 1)
    else o.(table := o.table + [Stored(r, |o.table| + 1)], inserted := o.inserted + 1)
  }

  function InsertAll<R(!new)>(t: seq<Stored<R>>, rs: seq<R>, ok: R -> bool, clash: (R, R) -> bool): Outcome<R> {
    if rs == [] then Outcome(t, 0, 0, false)
    else InsertOne(InsertAll(t, rs[..|rs| - 1], ok, clash), rs[|rs| - 1], ok, clash)
  }

  ghost predicate Numbered<R>(t: seq<Stored<R>>) { forall i :: 0 <= i < |t| ==> t[i].id == i + 1 }

  ghost predicate Deduplicated<R(!new)>(t: seq<Stored<R>>, clash: (R, R) -> bool) {
    forall i, j :: 0 <= i < j < |t| ==> !clash(t[i].record, t[j].record)
  }

  lemma InsertNothing<R(!new)>(t: seq<Stored<R>>, ok: R -> bool, clash: (R, R) -> bool)
    ensures InsertAll(t, [], ok, clash) == Outcome(t, 0, 0, false)
  {
  }

  lemma InsertAppend<R(!new)>(t: seq<Stored<R>>, rs: seq<R>, r: R, ok: R -> bool, clash: (R, R) -> bool)
    ensures InsertAll(t, rs + [r], ok, clash) == InsertOne(InsertAll(t, rs, ok, clash), r, ok, clash)
  {
    assert (rs + [r])[..|rs|] == rs;
  }

  /** A batch keeps ids 1..n and the absence of duplicates, only appends, and reports its counts truthfully. */
  lemma {:induction false} InsertKeepsTable<R(!new)>(t: seq<Stored<R>>, rs: seq<R>, ok: R -> bool,
                                                    clash: (R, R) -> bool)
    ensures var o := InsertAll(t, rs, ok, clash);
            && t <= o.table && |o.table| == |t| + o.inserted && 0 <= o.skipped
            && (!o.threw ==> o.inserted + o.skipped == |rs|)
            && (o.threw <==> exists i :: 0 <= i < |rs| && !ok(rs[i]))
            && (Numbered(t) ==> Numbered(o.table))
            && (Deduplicated(t, clash) ==> Deduplicated(o.table, clash))
  {
    if rs != [] {
      var m := |rs| - 1;
      InsertKeepsTable(t, rs[..m], ok, clash);
      if !ok(rs[m]) {
        assert exists i :: 0 <= i < |rs| && !ok(rs[i]);
      } else if exists i :: 0 <= i < |rs| && !ok(rs[i]) {
        var i :| 0 <= i < |rs| && !ok(rs[i]);
        assert !ok(rs[..m][i]);
      }
    }
  }

  lemma ClashStays<R(!new)>(t: seq<Stored<R>>, u: seq<Stored<R>>, r: R, clash: (R, R) -> bool)
    requires t <= u && Clashing(t, r, clash)
    ensures Clashing(u, r, clash)
  {
    var i :| 0 <= i < |t| && clash(t[i].record, r);
    assert clash(u[i].record, r);
  }

  /** After a batch, each of its records is a duplicate. */
  lemma {:induction false} InsertedClashes<R(!new)>(t: seq<Stored<R>>, rs: seq<R>, k: nat, ok: R -> bool,
                                                   clash: (R, R) -> bool)
    requires k < |rs| && !InsertAll(t, rs, ok, clash).threw && clash(rs[k], rs[k])
    ensures Clashing(InsertAll(t, rs, ok, clash).table, rs[k], clash)
  {
    var m := |rs| - 1;
    var before := InsertAll(t, rs[..m], ok, clash);
    var after := InsertAll(t, rs, ok, clash);
    InsertKeepsTable(t, rs[..m], ok, clash);
    if k < m {
      InsertedClashes(t, rs[..m], k, ok, clash);
      ClashStays(before.table, after.table, rs[k], clash);
    } else if !Clashing(before.table, rs[k], clash) {
      assert clash(after.table[|before.table|].record, rs[k]);
    }
  }

  lemma {:induction false} DuplicatesOnly<R(!new)>(t: seq<Stored<R>>, rs: seq<R>, ok: R -> bool, clash: (R, R) -> bool)
    requires forall k :: 0 <= k < |rs| ==> ok(rs[k]) && Clashing(t, rs[k], clash)
    ensures InsertAll(t, rs, ok, clash) == Outcome(t, 0, |rs|, false)
  {
    if rs != [] {
      DuplicatesOnly(t, rs[..|rs| - 1], ok, clash);
    }
  }

  /** Inserting a batch again inserts nothing, for any duplicate test by which a record clashes with itself. */
  lemma ReinsertingChangesNothing<R(!new)>(t: seq<Stored<R>>, rs: seq<R>, ok: R -> bool, clash: (R, R) -> bool)
    requires !InsertAll(t, rs, ok, clash).threw && forall r :: r in rs ==> clash(r, r)
    ensures var o := InsertAll(t, rs, ok, clash);
            InsertAll(o.table, rs, ok, clash) == Outcome(o.table, 0, |rs|, false)
  {
    var o := InsertAll(t, rs, ok, clash);
    InsertKeepsTable(t, rs, ok, clash);
    forall k | 0 <= k < |rs|
      ensures ok(rs[k]) && Clashing(o.table, rs[k], clash)
    {
      InsertedClashes(t, rs, k, ok, clash);
    }
    DuplicatesOnly(o.table, rs, ok, clash);
  }

  /** Inserting a ++ b is inserting a and then b; an exception in a stops both. */
  lemma {:induction false} BatchesCompose<R(!new)>(t: seq<Stored<R>>, a: seq<R>, b: seq<R>, ok: R -> bool,
                                                  clash: (R, R) -> bool)
    ensures var first := InsertAll(t, a, ok, clash);
            var second := InsertAll(first.table, b, ok, clash);
            InsertAll(t, a + b, ok, clash) ==
              if first.threw then first
              else Outcome(second.table, first.inserted + second.inserted, first.skipped + second.skipped, second.threw)
  {
    if b == [] {
      assert a + b == a;
    } else {
      BatchesCompose(t, a, b[..|b| - 1], ok, clash);
      assert a + b == (a + b[..|b| - 1]) + [b[|b| - 1]];
      InsertAppend(t, a + b[..|b| - 1], b[|b| - 1], ok, clash);
    }
  }

  /** Every row of the table after a batch was there before or came with the batch. */
  lemma {:induction false} RowsHaveOrigin<R(!new)>(t: seq<Stored<R>>, rs: seq<R>, ok: R -> bool, clash: (R, R) -> bool)
    ensures forall x :: x in InsertAll(t, rs, ok, clash).table ==> x in t || x.record in rs
  {
    if rs != [] {
      RowsHaveOrigin(t, rs[..|rs| - 1], ok, clash);
      assert rs == rs[..|rs| - 1] + [rs[|rs| - 1]];
    }
  }
}
