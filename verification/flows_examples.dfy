/**
 * Worked renderings of `Flows`: the three-group output for a small state, and a
 * state in which the Polonius answer and the rendering disagree.
 */
module FlowsExamples {
  import opened BitSets
  import opened Strings
  import opened Flows

  /** A cursor holding facts 0 and 1 lists their texts, in that order. */
  lemma TwoMembers(c: Cursor, a: string, b: string)
    requires c.state == BitSet([true, true])
    requires c.factText(0) == a && c.factText(1) == b
    ensures GroupItems(c) == [a, b]
    ensures Join(GroupItems(c)) == a + ", " + b
  {
    assert Iter(c.state) == [0, 1];
    assert Join([b]) == b;
  }

  /** A cursor holding only fact 0 lists its text alone. */
  lemma OneMember(c: Cursor, a: string)
    requires c.state == BitSet([true])
    requires c.factText(0) == a
    ensures GroupItems(c) == [a]
    ensures Join(GroupItems(c)) == a
  {
    assert Iter(c.state) == [0];
  }

  /** A cursor whose two facts are both absent lists nothing. */
  lemma NoMembers(c: Cursor)
    requires c.state == BitSet([false, false])
    ensures GroupItems(c) == []
  {
    assert Iter(c.state) == [];
  }

  /** The borrows group of the worked rendering. */
  lemma BorrowsGroupExample(c: Cursor)
    requires c.state == BitSet([true, true])
    requires c.factText(0) == "bw0" && c.factText(1) == "bw1"
    ensures Group("borrows in effect", GroupItems(c)) == "borrows in effect: [bw0, bw1]"
  {
    TwoMembers(c, "bw0", "bw1");
  }

  /** The maybe-uninitialized group of the worked rendering. */
  lemma UninitsGroupExample(c: Cursor)
    requires c.state == BitSet([true])
    requires c.factText(0) == "mp0"
    ensures Group("uninits", GroupItems(c)) == "uninits: [mp0]"
  {
    OneMember(c, "mp0");
  }

  /**
   * Two borrows, one maybe-uninitialized place and no ever-initialized place:
   * commas only between members, an empty group as `[]`, one space between groups.
   */
  lemma RenderExample(f: Flows)
    requires f.borrows.state == BitSet([true, true])
    requires f.uninits.state == BitSet([true])
    requires f.everInits.state == BitSet([false, false])
    requires f.borrows.factText(0) == "bw0" && f.borrows.factText(1) == "bw1"
    requires f.uninits.factText(0) == "mp0"
    ensures Render(f) == "borrows in effect: [bw0, bw1]" + " " + "uninits: [mp0]" + " " + "ever_init: []"
  {
    BorrowsGroupExample(f.borrows);
    UninitsGroupExample(f.uninits);
    NoMembers(f.everInits);
  }

  /**
   * With a Polonius output that reports no borrow at location 0, `borrows_in_scope`
   * answers nothing there while the rendering still lists the borrow the local
   * cursor holds.
   */
  lemma PoloniusDiverges(f: Flows)
    requires f.borrows.state == BitSet([true]) && f.borrows.factText(0) == "bw0"
    requires f.uninits.state == BitSet([false, false])
    requires f.everInits.state == BitSet([false, false])
    requires f.poloniusOutput.Some? && f.poloniusOutput.value.errorsAt(0) == []
    ensures BorrowsInScope(f, 0) == []
    ensures f.borrows.state.Contains(0)
    ensures Render(f) == "borrows in effect: [bw0]" + " " + "uninits: []" + " " + "ever_init: []"
  {
    var gb, gu, ge := Group("borrows in effect", GroupItems(f.borrows)), Group("uninits", GroupItems(f.uninits)),
                      Group("ever_init", GroupItems(f.everInits));
    assert gb == "borrows in effect: [bw0]" by {
      OneMember(f.borrows, "bw0");
    }
    assert gu == "uninits: []" by {
      NoMembers(f.uninits);
    }
    assert ge == "ever_init: []" by {
      NoMembers(f.everInits);
    }
    assert Render(f) == gb + " " + gu + " " + ge;
  }
}
