/**
  Grouping of the menu by course in the order form: every item goes to the
  group named by its course, or to "General" when it has none, and items keep
  their menu order. The group names are kept in the order of their first
  item; the page lists them in the order of the accumulator object's keys,
  which is that order only for course names that are not integer-like.
 */
module Categories {
  import opened Wrappers
  import opened Cart
  import opened Sequences

  /** `item.course || "General"`: an absent or empty course falls back to "General". */
  function CourseOf(item: Item): string {
    if item.course.None? || item.course.value == "" then "General" else item.course.value
  }

  /** The items of course `c`, in menu order. */
  function InCourse(items: seq<Item>, c: string): (r: seq<Item>)
    ensures IsSubsequence(r, items)
    ensures forall x :: x in r ==> CourseOf(x) == c
    ensures forall x :: x in items && CourseOf(x) == c ==> x in r
    decreases |items|
  {
    if items == [] then []
    else
      var init, last := items[..|items| - 1], items[|items| - 1];
      assert items == init + [last];
      if CourseOf(last) == c then InCourse(init, c) + [last] else InCourse(init, c)
  }

  /** The distinct courses, in the order of their first item. */
  function Courses(items: seq<Item>): seq<string>
    decreases |items|
  {
    if items == [] then []
    else
      var init, last := items[..|items| - 1], items[|items| - 1];
      var cs := Courses(init);
      if CourseOf(last) in cs then cs else cs + [CourseOf(last)]
  }

  /** The sum of the group sizes over the courses `cs`. */
  function GroupSizes(items: seq<Item>, cs: seq<string>): nat {
    if cs == [] then 0 else |InCourse(items, cs[0])| + GroupSizes(items, cs[1..])
  }

  /**
    The accumulator loop: for each item, create its course's group if needed
    and push the item onto it.
   */
  method Categorize(items: seq<Item>) returns (groups: map<string, seq<Item>>, keys: seq<string>)
    ensures keys == Courses(items)
    ensures forall c :: c in groups <==> c in keys
    ensures forall c :: c in groups ==> groups[c] == InCourse(items, c)
  {
    groups, keys := map[], [];
    var i := 0;
    while i < |items|
      invariant 0 <= i <= |items|
      invariant keys == Courses(items[..i])
      invariant forall c :: c in groups <==> c in keys
      invariant forall c :: c in groups ==> groups[c] == InCourse(items[..i], c)
    {
      var item := items[i];
      var course := CourseOf(item);
      assert items[..i + 1][..i] == items[..i];
      if course !in groups {
        NotACourseHasNoItems(items[..i], course);
        groups := groups[course := []];
        keys := keys + [course];
      }
      groups := groups[course := groups[course] + [item]];
      i := i + 1;
    }
    assert items[..i] == items;
  }

  lemma {:induction false} CoursesAreCourses(items: seq<Item>, c: string)
    ensures c in Courses(items) <==> exists x :: x in items && CourseOf(x) == c
    decreases |items|
  {
    if items != [] {
      var init, last := items[..|items| - 1], items[|items| - 1];
      assert items == init + [last];
      CoursesAreCourses(init, c);
    }
  }

  lemma {:induction false} NotACourseHasNoItems(items: seq<Item>, c: string)
    requires c !in Courses(items)
    ensures InCourse(items, c) == []
    decreases |items|
  {
    if items != [] {
      var init, last := items[..|items| - 1], items[|items| - 1];
      assert CourseOf(last) in Courses(items);
      NotACourseHasNoItems(init, c);
    }
  }

  /** Each course is listed once. */
  lemma {:induction false} CoursesOccurOnce(items: seq<Item>, c: string)
    ensures multiset(Courses(items))[c] == if c in Courses(items) then 1 else 0
    decreases |items|
  {
    if items != [] {
      var init := items[..|items| - 1];
      CoursesOccurOnce(init, c);
    }
  }

  lemma {:induction false} GroupSizesConcat(items: seq<Item>, a: seq<string>, b: seq<string>)
    ensures GroupSizes(items, a + b) == GroupSizes(items, a) + GroupSizes(items, b)
  {
    if a == [] {
      assert a + b == b;
    } else {
      assert (a + b)[0] == a[0];
      assert (a + b)[1..] == a[1..] + b;
      GroupSizesConcat(items, a[1..], b);
    }
  }

  /** One more item adds one to the group size of each listing of its course. */
  lemma {:induction false} GroupSizesSnoc(init: seq<Item>, x: Item, cs: seq<string>)
    ensures GroupSizes(init + [x], cs) == GroupSizes(init, cs) + multiset(cs)[CourseOf(x)]
  {
    if cs != [] {
      var items := init + [x];
      assert items[..|items| - 1] == init;
      GroupSizesSnoc(init, x, cs[1..]);
      assert cs == [cs[0]] + cs[1..];
      assert multiset(cs) == multiset([cs[0]]) + multiset(cs[1..]);
    }
  }

  /** Every item lands in exactly one group: the group sizes add up to the number of items. */
  lemma {:induction false} GroupSizesSumToItems(items: seq<Item>)
    ensures GroupSizes(items, Courses(items)) == |items|
    decreases |items|
  {
    if items != [] {
      var init, last := items[..|items| - 1], items[|items| - 1];
      assert items == init + [last];
      var k := CourseOf(last);
      var cs := Courses(init);
      GroupSizesSumToItems(init);
      CoursesOccurOnce(init, k);
      if k in cs {
        GroupSizesSnoc(init, last, cs);
      } else {
        GroupSizesSnoc(init, last, cs);
        GroupSizesConcat(items, cs, [k]);
        NotACourseHasNoItems(init, k);
        assert InCourse(items, k) == [last];
        assert GroupSizes(items, [k]) == 1;
      }
    }
  }

  /** Each item is in the group of its own course. */
  lemma ItemInItsGroup(items: seq<Item>, i: int)
    requires 0 <= i < |items|
    ensures CourseOf(items[i]) in Courses(items)
    ensures items[i] in InCourse(items, CourseOf(items[i]))
  {
    CoursesAreCourses(items, CourseOf(items[i]));
    assert items[i] in items;
  }
}
