// Trial numbering: what "each id exactly once" gives the dictionary lookups.
module CampaignIds {
  import opened Wrappers
  import opened CampaignData

  lemma {:induction false} RangeCounts(first: nat, count: nat, id: nat)
    ensures multiset(Range(first, count))[id] == if first <= id < first + count then 1 else 0
    decreases count
  {
    if count == 0 {
      assert Range(first, 0) == [];
    } else {
      RangeCounts(first, count - 1, id);
      assert Range(first, count) == Range(first, count - 1) + [first + count - 1];
    }
  }

  lemma IdsAppend(a: seq<Trial>, b: seq<Trial>)
    ensures Ids(a + b) == Ids(a) + Ids(b)
  {
  }

  lemma IdOfRow(rows: seq<Trial>, r: Trial)
    requires r in rows
    ensures r.id in Ids(rows)
  {
    var i :| 0 <= i < |rows| && rows[i] == r;
    assert Ids(rows)[i] == r.id;
  }

  // An id that occurs at most once is found as its only row.
  lemma {:induction false} FindOnly(rows: seq<Trial>, r: Trial)
    requires r in rows && multiset(Ids(rows))[r.id] <= 1
    ensures Find(rows, r.id) == Some(r)
  {
    var n := |rows| - 1;
    var front := rows[..n];
    assert rows == front + [rows[n]];
    IdsAppend(front, [rows[n]]);
    assert Ids([rows[n]]) == [rows[n].id];
    if r in front {
      IdOfRow(front, r);
      assert multiset(Ids(front))[r.id] >= 1;
      FindOnly(front, r);
    }
  }

  lemma {:induction false} FindNone(rows: seq<Trial>, id: nat)
    ensures Find(rows, id) == None <==> forall r :: r in rows ==> r.id != id
    ensures Find(rows, id).Some? ==> Find(rows, id).value in rows && Find(rows, id).value.id == id
  {
    if rows != [] {
      FindNone(rows[..|rows| - 1], id);
      assert rows == rows[..|rows| - 1] + [rows[|rows| - 1]];
    }
  }

  lemma NumberedRow(s: State, r: Trial)
    requires Numbered(s) && r in Rows(s)
    ensures 1 <= r.id < s.nextTrialId
    ensures Find(Rows(s), r.id) == Some(r)
  {
    IdOfRow(Rows(s), r);
    assert r.id in multiset(Ids(Rows(s)));
    RangeCounts(1, s.nextTrialId - 1, r.id);
    FindOnly(Rows(s), r);
  }

  // Main result: canonical ids are contiguous, unique and below the counter.
  lemma NumberedMeansExactlyOnce(s: State, id: nat)
    requires Numbered(s)
    ensures 1 <= id < s.nextTrialId <==> exists r :: r in Rows(s) && r.id == id
    ensures forall r, q :: r in Rows(s) && q in Rows(s) && r.id == q.id ==> r == q
    ensures |Rows(s)| == s.nextTrialId - 1
  {
    RangeCounts(1, s.nextTrialId - 1, id);
    if 1 <= id < s.nextTrialId {
      assert id in multiset(Ids(Rows(s)));
      var i :| 0 <= i < |Rows(s)| && Ids(Rows(s))[i] == id;
      assert Rows(s)[i] in Rows(s);
    }
    forall r, q | r in Rows(s) && q in Rows(s) && r.id == q.id ensures r == q {
      NumberedRow(s, r);
      NumberedRow(s, q);
    }
    forall r | r in Rows(s) ensures 1 <= r.id < s.nextTrialId { NumberedRow(s, r); }
    assert |multiset(Ids(Rows(s)))| == |multiset(Range(1, s.nextTrialId - 1))|;
  }

  // New trials take the next ids.
  lemma NumberedGrows(s: State, grown: State, added: seq<Trial>)
    requires Numbered(s)
    requires multiset(Ids(Rows(grown))) == multiset(Ids(Rows(s))) + multiset(Ids(added))
    requires Ids(added) == Range(s.nextTrialId, |added|) && grown.nextTrialId == s.nextTrialId + |added|
    ensures Numbered(grown)
  {
    assert Range(1, grown.nextTrialId - 1) == Range(1, s.nextTrialId - 1) + Range(s.nextTrialId, |added|);
  }
}
