/** Inputs on which the index set does not do what it promises; they meet the exact conditions of its operations. */
module IndexSetFailures {
  import opened Ranges
  import opened Chunks
  import opened IndexSetSteps
  import opened RangeEdits
  import opened IndexGains
  import opened RangeBuilder

  function FirstFour(): seq<Range> {
    [Range(0, 1), Range(2, 3), Range(4, 5), Range(6, 7)]
  }

  /** Five ranges of which the last reaches far, in chunks of four. */
  function TwoChunks(): seq<Chunk> {
    [Chunk(FirstFour(), 0, 7, 4), Chunk([Range(8, 12)], 8, 12, 4)]
  }

  /** Counting from 2 to 10 leaves out the two members 8 and 9: there are five, and three are counted. */
  lemma CountFallsShort()
    ensures var m := TwoChunks();
            && Cached(m, 4) && Canonical(Flat(m)) && CutShort(m, 2, 10, 0)
            && Between(Flat(m), 2, 10) == 5 && 10 - m[1].begin == 2
  {
    TwoChunksFlat();
    FourTotal();
    FiveBelow();
  }

  lemma TwoChunksFlat()
    ensures Flat(TwoChunks()) == FirstFour() + [Range(8, 12)]
  {
    var m := TwoChunks();
    assert m[1..][0] == m[1] && m[1..][1..] == [];
    assert Flat(m[1..]) == m[1].data;
  }

  lemma FourTotal()
    ensures Total(FirstFour()) == 4 && Total([Range(8, 12)]) == 4
  {
    hide Total;
    assert FirstFour() == [Range(0, 1), Range(2, 3)] + [Range(4, 5), Range(6, 7)];
    TotalConcat([Range(0, 1), Range(2, 3)], [Range(4, 5), Range(6, 7)]);
    TwoTotal(Range(0, 1), Range(2, 3));
    TwoTotal(Range(4, 5), Range(6, 7));
    TotalOne(Range(8, 12));
  }

  /** Four members and two more lie below 10, and one of them below 2. */
  lemma FiveBelow()
    ensures Between(FirstFour() + [Range(8, 12)], 2, 10) == 5
  {
    hide Below, Total;
    FourTotal();
    BelowAll(FirstFour(), 10);
    BelowConcat(FirstFour(), [Range(8, 12)], 10);
    BelowOne(Range(8, 12), 10);
    var rest := [Range(2, 3), Range(4, 5), Range(6, 7), Range(8, 12)];
    assert FirstFour() + [Range(8, 12)] == [Range(0, 1)] + rest;
    BelowConcat([Range(0, 1)], rest, 2);
    BelowOne(Range(0, 1), 2);
    BelowNone(rest, 2);
  }

  lemma TwoTotal(r: Range, s: Range)
    ensures Total([r, s]) == r.Len() + s.Len()
  {
    assert [r, s] == [r] + [s];
    TotalConcat([r], [s]);
    TotalOne(r);
    TotalOne(s);
  }

  /**
   * Adding 0, 2, 4 and 6 to a set of 100 and 101 fills the one planned chunk, and the copied range
   * of two indices starts another one, which counts it as one.
   */
  lemma CopyIsMiscounted()
    ensures var rs := [Range(100, 102)];
            var vs := [Range(0, 1), Range(2, 3), Range(4, 5), Range(6, 7)];
            && Sorted([]) && Canonical(vs + rs) && GainedBy(rs, [], vs, vs + rs) && Miscounted(rs, vs + rs, 4, 1)
            && !CountsStayRight(rs, [], vs, 4)
  {
    var rs := [Range(100, 102)];
    var vs := [Range(0, 1), Range(2, 3), Range(4, 5), Range(6, 7)];
    forall y: nat ensures Has(vs + rs, y) <==> Has(rs, y) || Gained(rs, [], vs, y) {
      HasConcat(vs, rs, y);
      HasOne(Range(100, 102), y);
      BelowOne(Range(100, 102), y);
      FourHave(vs, y);
    }
    forall y: nat | 100 <= y && Has(vs + rs, y) ensures Has(rs, y) {
      HasConcat(vs, rs, y);
      FourHave(vs, y);
    }
  }

  lemma FourHave(vs: seq<Range>, y: nat)
    requires vs == [Range(0, 1), Range(2, 3), Range(4, 5), Range(6, 7)]
    ensures Has(vs, y) ==> y <= 6
  {
  }

  /** Removing no index between two members still splits their range, which is then not coalesced. */
  lemma RemovingNothingSplits()
    ensures Canonical([Range(0, 2)]) && Inside([Range(0, 2)], 1)
    ensures Cut([Range(0, 2)], 0, 1, 1) == [Range(0, 1), Range(1, 2)] && !Canonical([Range(0, 1), Range(1, 2)])
  {
    assert [Range(0, 1), Range(1, 2)][0].second == [Range(0, 1), Range(1, 2)][1].first;
    HasOne(Range(0, 2), 0);
    HasOne(Range(0, 2), 1);
  }
}
