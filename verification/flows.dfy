/**
 * The borrow checker's dataflow facade `Flows`: three results cursors (borrows,
 * maybe-uninitialized places, ever-initialized places) and an optional Polonius
 * output. The cursors are taken as already positioned: a cursor is the state its
 * `get()` returns together with the owning analysis's text for each fact index.
 */
module Flows {
  import opened BitSets
  import opened Strings

  datatype Option<T> = None | Some(value: T)

  type LocationIndex = nat
  type BorrowIndex = nat

  /** A positioned results cursor: its current state, and the text of each fact. */
  datatype Cursor = Cursor(state: BitSet, factText: nat -> string)

  /** The Polonius output, consumed only through `errors_at`. */
  datatype PoloniusOutput = PoloniusOutput(errorsAt: LocationIndex -> seq<BorrowIndex>)

  datatype Flows = Flows(borrows: Cursor, uninits: Cursor, everInits: Cursor,
                         poloniusOutput: Option<PoloniusOutput>)

  /**
   * `Flows::borrows_in_scope`: with a Polonius output, its answer for the location,
   * in its own order; without one, the members of the borrows cursor's current
   * state, in index order. The two sources are never combined.
   */
  function BorrowsInScope(f: Flows, location: LocationIndex): (r: seq<BorrowIndex>)
    ensures f.poloniusOutput.Some? ==> r == f.poloniusOutput.value.errorsAt(location)
    ensures f.poloniusOutput.None? ==> StrictlyIncreasing(r)
    ensures f.poloniusOutput.None? ==> forall i: nat :: i in r <==> f.borrows.state.Contains(i)
  {
    match f.poloniusOutput
    case Some(polonius) => polonius.errorsAt(location)
    case None => Iter(f.borrows.state)
  }

  /**
   * With a Polonius output, the borrows cursor has no say: any cursor contents give
   * the same answer. Without one, the location is not consulted: the cursor is
   * read where it was last positioned.
   */
  lemma BorrowsInScopeSources(f: Flows, c: Cursor, l1: LocationIndex, l2: LocationIndex)
    ensures f.poloniusOutput.Some? ==> BorrowsInScope(f.(borrows := c), l1) == BorrowsInScope(f, l1)
    ensures f.poloniusOutput.None? ==> BorrowsInScope(f, l1) == BorrowsInScope(f, l2)
  {
  }

  /** The texts of a cursor's current members, in index order. */
  function GroupItems(c: Cursor): seq<string> {
    var members := Iter(c.state);
    seq(|members|, k requires 0 <= k < |members| => c.factText(members[k]))
  }

  /** One group of the rendering: its name, then its items in brackets. */
  function Group(name: string, items: seq<string>): string {
    name + ": [" + Join(items) + "]"
  }

  /**
   * The debug rendering: three named groups, in a fixed order and separated by one
   * space, each listing the texts of its own local cursor's members.
   */
  function Render(f: Flows): string {
    Group("borrows in effect", GroupItems(f.borrows)) + " "
    + Group("uninits", GroupItems(f.uninits)) + " "
    + Group("ever_init", GroupItems(f.everInits))
  }

  /**
   * One `for_each` loop of the `Display` implementation: appends the cursor's member
   * texts to `s`, pushing `", "` before every member but the first.
   */
  method PushGroup(s: string, c: Cursor) returns (r: string)
    ensures r == s + Join(GroupItems(c))
  {
    var members := Iter(c.state);
    ghost var items := GroupItems(c);
    r := s;
    var sawOne := false;
    var k := 0;
    while k < |members|
      invariant 0 <= k <= |members|
      invariant sawOne <==> k > 0
      invariant r == s + Join(items[..k])
    {
      if sawOne {
        r := r + ", ";
      }
      sawOne := true;
      r := r + c.factText(members[k]);
      JoinSnoc(items[..k], items[k]);
      assert items[..k + 1] == items[..k] + [items[k]];
      k := k + 1;
    }
    assert items[..k] == items;
  }

  /**
   * `impl Display for Flows`: builds the rendering group by group, always from the
   * local cursors, whether or not a Polonius output is present.
   */
  method Fmt(f: Flows) returns (s: string)
    ensures s == Render(f)
  {
    ghost var b := Group("borrows in effect", GroupItems(f.borrows));
    ghost var u := Group("uninits", GroupItems(f.uninits));
    ghost var e := Group("ever_init", GroupItems(f.everInits));
    s := "borrows in effect: [";
    s := PushGroup(s, f.borrows);
    s := s + "] ";
    assert s == b + " " by {
      assert "borrows in effect: [" == "borrows in effect" + ": [";
      assert "] " == "]" + " ";
    }
    ghost var first := s;
    s := s + "uninits: [";
    s := PushGroup(s, f.uninits);
    s := s + "] ";
    assert s == first + u + " " by {
      assert "uninits: [" == "uninits" + ": [";
      assert "] " == "]" + " ";
    }
    ghost var second := s;
    s := s + "ever_init: [";
    s := PushGroup(s, f.everInits);
    s := s + "]";
    assert s == second + e by {
      assert "ever_init: [" == "ever_init" + ": [";
    }
  }

  /**
   * The rendering never consults the Polonius output, so with one present it can
   * show borrows that `borrows_in_scope` does not return, and the other way round.
   */
  lemma RenderIgnoresPolonius(f: Flows, p: Option<PoloniusOutput>)
    ensures Render(f.(poloniusOutput := p)) == Render(f)
  {
  }

  /** Text in which neither bracket nor the comma occurs. */
  predicate Plain(t: string) {
    '[' !in t && ']' !in t && ',' !in t
  }

  /**
   * A group with a plain name and plain items has one `[` and one `]`, and as many
   * commas as it has separators.
   */
  lemma GroupCounts(name: string, items: seq<string>)
    requires Plain(name)
    requires forall k :: 0 <= k < |items| ==> Plain(items[k])
    ensures Count('[', Group(name, items)) == 1
    ensures Count(']', Group(name, items)) == 1
    ensures Count(',', Group(name, items)) == Separators(|items|)
  {
    var j := Join(items);
    JoinAbsent('[', items);
    JoinAbsent(']', items);
    JoinCommas(items);
    forall c: char | c == '[' || c == ']' || c == ','
      ensures Count(c, Group(name, items)) == Count(c, name) + Count(c, ": [") + Count(c, j) + Count(c, "]")
    {
      CountConcat(c, name, ": [");
      CountConcat(c, name + ": [", j);
      CountConcat(c, name + ": [" + j, "]");
    }
    CountAbsent('[', name);
    CountAbsent(']', name);
    CountAbsent(',', name);
  }

  /** The three group names hold neither bracket nor comma. */
  lemma NamesArePlain()
    ensures Plain("borrows in effect") && Plain("uninits") && Plain("ever_init")
  {
  }

  /** The group of a cursor whose fact texts are all plain, counted by its members. */
  lemma CursorGroupCounts(name: string, c: Cursor)
    requires Plain(name)
    requires forall i: nat :: Plain(c.factText(i))
    ensures Count('[', Group(name, GroupItems(c))) == 1
    ensures Count(']', Group(name, GroupItems(c))) == 1
    ensures Count(',', Group(name, GroupItems(c))) == Separators(|Iter(c.state)|)
  {
    GroupCounts(name, GroupItems(c));
  }

  /**
   * Exactly three groups: when no fact text contains a bracket or a comma, the
   * rendering has exactly three `[` and three `]`, its commas are exactly the
   * separators of its groups (`k - 1` for a group of `k` members, none for an empty
   * group).
   */
  lemma RenderShape(f: Flows)
    requires forall i: nat :: Plain(f.borrows.factText(i))
    requires forall i: nat :: Plain(f.uninits.factText(i))
    requires forall i: nat :: Plain(f.everInits.factText(i))
    ensures Count('[', Render(f)) == 3
    ensures Count(']', Render(f)) == 3
    ensures Count(',', Render(f))
         == Separators(|Iter(f.borrows.state)|) + Separators(|Iter(f.uninits.state)|)
            + Separators(|Iter(f.everInits.state)|)
  {
    var b := Group("borrows in effect", GroupItems(f.borrows));
    var u := Group("uninits", GroupItems(f.uninits));
    var e := Group("ever_init", GroupItems(f.everInits));
    NamesArePlain();
    CursorGroupCounts("borrows in effect", f.borrows);
    CursorGroupCounts("uninits", f.uninits);
    CursorGroupCounts("ever_init", f.everInits);
    CountSpaced('[', b, u, e);
    CountSpaced(']', b, u, e);
    CountSpaced(',', b, u, e);
  }

  /** The rendering ends with the closing bracket of its last group, not a space. */
  lemma RenderEndsWithBracket(f: Flows)
    ensures |Render(f)| > 0 && Render(f)[|Render(f)| - 1] == ']'
  {
  }

  /** Counting a character other than the space across three space-separated parts. */
  lemma CountSpaced(c: char, b: string, u: string, e: string)
    requires c != ' '
    ensures Count(c, b + " " + u + " " + e) == Count(c, b) + Count(c, u) + Count(c, e)
  {
    CountConcat(c, b, " ");
    CountConcat(c, b + " ", u);
    CountConcat(c, b + " " + u, " ");
    CountConcat(c, b + " " + u + " ", e);
  }
}
