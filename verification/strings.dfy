/**
 * The little string vocabulary the debug rendering needs: joining texts with a
 * `", "` separator, and counting the occurrences of a character.
 */
module Strings {

  /** The items in order with `", "` between neighbours, and nothing for no item. */
  function Join(items: seq<string>): string
    decreases |items|
  {
    if |items| == 0 then ""
    else if |items| == 1 then items[0]
    else items[0] + ", " + Join(items[1..])
  }

  /** The number of times `c` occurs in `s`. */
  function Count(c: char, s: string): nat
    decreases |s|
  {
    if |s| == 0 then 0 else (if s[0] == c then 1 else 0) + Count(c, s[1..])
  }

  /** The sum of the lengths of the items. */
  function TotalLength(items: seq<string>): nat
    decreases |items|
  {
    if |items| == 0 then 0 else |items[0]| + TotalLength(items[1..])
  }

  /** The number of separators a group of `k` items has: one between each neighbouring pair. */
  function Separators(k: nat): nat {
    if k == 0 then 0 else k - 1
  }

  lemma {:induction false} CountConcat(c: char, a: string, b: string)
    ensures Count(c, a + b) == Count(c, a) + Count(c, b)
    decreases |a|
  {
    if |a| == 0 {
      assert a + b == b;
    } else {
      assert (a + b)[1..] == a[1..] + b;
      CountConcat(c, a[1..], b);
    }
  }

  lemma {:induction false} CountAbsent(c: char, s: string)
    requires c !in s
    ensures Count(c, s) == 0
    decreases |s|
  {
    if |s| > 0 {
      CountAbsent(c, s[1..]);
    }
  }

  /**
   * Appending one item extends the joined text by a separator and the item, with
   * no separator before the first item: the shape the rendering loop builds.
   */
  lemma {:induction false} JoinSnoc(items: seq<string>, x: string)
    ensures Join(items + [x]) == if |items| == 0 then x else Join(items) + ", " + x
    decreases |items|
  {
    if |items| == 0 {
      assert items + [x] == [x];
    } else if |items| == 1 {
      assert items + [x] == [items[0], x];
      assert [items[0], x][1..] == [x];
    } else {
      assert (items + [x])[1..] == items[1..] + [x];
      JoinSnoc(items[1..], x);
    }
  }

  /**
   * A group of `k` items is the items' text plus exactly `k - 1` two-character
   * separators, and nothing at all when empty: no leading or trailing separator.
   */
  lemma {:induction false} JoinLength(items: seq<string>)
    ensures |Join(items)| == TotalLength(items) + 2 * Separators(|items|)
    decreases |items|
  {
    if |items| > 1 {
      JoinLength(items[1..]);
    }
  }

  /** When no item contains a comma, the commas of the joined text are the `k - 1` separators. */
  lemma {:induction false} JoinCommas(items: seq<string>)
    requires forall k :: 0 <= k < |items| ==> ',' !in items[k]
    ensures Count(',', Join(items)) == Separators(|items|)
    decreases |items|
  {
    if |items| == 1 {
      CountAbsent(',', items[0]);
    } else if |items| > 1 {
      JoinCommas(items[1..]);
      CountAbsent(',', items[0]);
      CountConcat(',', items[0], ", ");
      CountConcat(',', items[0] + ", ", Join(items[1..]));
    }
  }

  /**
   * A character that is not part of the separator and occurs in no item does not
   * occur in the joined text.
   */
  lemma {:induction false} JoinAbsent(c: char, items: seq<string>)
    requires c != ',' && c != ' '
    requires forall k :: 0 <= k < |items| ==> c !in items[k]
    ensures Count(c, Join(items)) == 0
    decreases |items|
  {
    if |items| == 1 {
      CountAbsent(c, items[0]);
    } else if |items| > 1 {
      JoinAbsent(c, items[1..]);
      CountAbsent(c, items[0]);
      CountConcat(c, items[0], ", ");
      CountConcat(c, items[0] + ", ", Join(items[1..]));
    }
  }
}
