/** The food-journal logic of todos.js: `chewFood` as the entry form uses it, the
    Todo record with its defaults, and the TodoList collection with its filters,
    ordering, calorie total and the mutators the app applies to it. */
module TodoApp {
  import opened Wrappers
  import opened Text
  import opened Patterns
  import opened Extraction
  import opened JsParseInt

  // ---------------------------------------------------------------------------
  // chewFood (createOnEnter's local parser)

  /** The `count` field of chewFood's result: `{value: "1x"}` with no offset or length
      when the line has no count token, otherwise the match itself. */
  datatype CountAnnotation = DefaultCount | Counted(token: Match) {
    function Value(): string {
      if DefaultCount? then "1x" else token.value
    }
  }

  datatype Chewed = Chewed(count: CountAnnotation, cal: Option<Match>, food: string)

  /** chewFood: `item` is rewritten by the count removal and then by the calorie
      removal, while the result record is filled in field by field. */
  method ChewFood(line: string) returns (r: Chewed)
    ensures r.count.DefaultCount? <==> Extract(line).count.None?
    ensures r.count.DefaultCount? ==> r.count.Value() == "1x"
    ensures r.count.Counted? ==> Extract(line).count == Some(r.count.token)
    ensures r.cal == Extract(line).cal
    ensures r.food == Extract(line).food
  {
    var item := line;
    r := Chewed(DefaultCount, None, "");
    var countAt := FindCount(item);
    if countAt.Some? {
      r := r.(count := Counted(MatchAt(item, countAt.value, 2)));
      item := Trim(Splice(item, r.count.token.index, r.count.token.length));
    }
    var calRun := FindDigits(item);
    if calRun.Some? {
      r := r.(cal := Some(MatchAt(item, calRun.value.0, calRun.value.1)));
      item := Trim(Splice(item, r.cal.value.index, r.cal.value.length));
    }
    r := r.(food := item);
  }

  // ---------------------------------------------------------------------------
  // Todo

  datatype Todo = Todo(title: string, order: int, done: bool, food: string, count: string, cal: string)

  const DefaultTitle: string := "empty todo..."

  /** `defaults()`: the attribute values a new Todo starts from. */
  function Defaults(nextOrder: int): (t: Todo)
    ensures t.title == DefaultTitle && t.order == nextOrder && !t.done
    ensures t.food == "" && t.count == "" && t.cal == ""
  {
    Todo(DefaultTitle, nextOrder, false, "", "", "")
  }

  /** `initialize()`: a Todo whose title is empty gets the default title; nothing else
      changes, and every Todo ends up with a non-empty title. */
  function Initialize(t: Todo): (u: Todo)
    ensures u.title != ""
    ensures t.title == "" ==> u.title == DefaultTitle
    ensures t.title != "" ==> u == t
    ensures u == t.(title := u.title)
  {
    if t.title == "" then t.(title := DefaultTitle) else t
  }

  /** A Todo created with the given attributes: the defaults, overridden by the
      attributes passed, then `initialize()`. */
  function NewTodo(title: string, food: string, cal: string, count: string, nextOrder: int): (t: Todo)
    ensures t.order == nextOrder && !t.done && t.title != ""
    ensures t.food == food && t.cal == cal && t.count == count
    ensures title != "" ==> t.title == title
    ensures title == "" ==> t.title == DefaultTitle
  {
    Initialize(Defaults(nextOrder).(title := title, food := food, cal := cal, count := count))
  }

  // ---------------------------------------------------------------------------
  // Filters and ordering

  /** `comparator`: the collection is kept sorted by this key. */
  function Comparator(t: Todo): int {
    t.order
  }

  /** Sorted by `comparator` with no two items sharing an order: every order handed
      out by `nextOrder()` exceeds all earlier ones, so the collection keeps this. */
  predicate SortedByOrder(s: seq<Todo>) {
    forall i, j :: 0 <= i < j < |s| ==> Comparator(s[i]) < Comparator(s[j])
  }

  /** `done()`: the finished items, in collection order. */
  function Done(s: seq<Todo>): (d: seq<Todo>)
    ensures forall t :: t in d <==> t in s && t.done
  {
    if s == [] then []
    else (if s[0].done then [s[0]] else []) + Done(s[1..])
  }

  /** `_.without(s, xs...)`: the items of `s` that are not among `xs`. */
  function Without(s: seq<Todo>, xs: seq<Todo>): (w: seq<Todo>)
    ensures forall t :: t in w <==> t in s && t !in xs
  {
    if s == [] then []
    else (if s[0] in xs then [] else [s[0]]) + Without(s[1..], xs)
  }

  /** `remaining()`: everything minus `done()`. */
  function Remaining(s: seq<Todo>): seq<Todo> {
    Without(s, Done(s))
  }

  /** `nextOrder()`: one past the order of the last item, or 1 for an empty list. */
  function NextOrder(s: seq<Todo>): int {
    if |s| == 0 then 1 else s[|s| - 1].order + 1
  }

  /** `a` is `b` with some items left out and the rest in their original order. */
  ghost predicate SubsequenceOf(a: seq<Todo>, b: seq<Todo>)
    decreases |b|
  {
    if a == [] then true
    else if b == [] then false
    else (a[0] == b[0] && SubsequenceOf(a[1..], b[1..])) || SubsequenceOf(a, b[1..])
  }

  /** `done()` and `remaining()` split the collection: every item is in exactly one of
      them according to its flag, the two together hold each item as often as the
      collection does, and each keeps the collection's order. */
  lemma {:induction false} DoneRemainingPartition(s: seq<Todo>)
    ensures forall t :: t in Done(s) ==> t.done
    ensures forall t :: t in Remaining(s) ==> !t.done
    ensures forall t :: t in s ==> (t in Done(s) <==> t !in Remaining(s))
    ensures multiset(Done(s)) + multiset(Remaining(s)) == multiset(s)
    ensures SubsequenceOf(Done(s), s) && SubsequenceOf(Remaining(s), s)
  {
    RemainingIsNotDone(s);
    DoneMultiset(s);
    DoneSubsequence(s);
  }

  /** Filtering `!done` gives the same list as removing the done items. */
  function NotDone(s: seq<Todo>): (n: seq<Todo>) {
    if s == [] then []
    else (if s[0].done then [] else [s[0]]) + NotDone(s[1..])
  }

  lemma {:induction false} RemainingIsNotDoneFrom(s: seq<Todo>, xs: seq<Todo>)
    requires forall t :: t in s ==> (t in xs <==> t.done)
    ensures Without(s, xs) == NotDone(s)
  {
    if s != [] {
      RemainingIsNotDoneFrom(s[1..], xs);
    }
  }

  lemma RemainingIsNotDone(s: seq<Todo>)
    ensures Remaining(s) == NotDone(s)
  {
    RemainingIsNotDoneFrom(s, Done(s));
  }

  lemma {:induction false} DoneMultiset(s: seq<Todo>)
    ensures multiset(Done(s)) + multiset(NotDone(s)) == multiset(s)
  {
    if s != [] {
      DoneMultiset(s[1..]);
      assert s == [s[0]] + s[1..];
    }
  }

  lemma {:induction false} DoneSubsequence(s: seq<Todo>)
    ensures SubsequenceOf(Done(s), s) && SubsequenceOf(NotDone(s), s)
    decreases |s|
  {
    if s != [] {
      DoneSubsequence(s[1..]);
      if s[0].done {
        assert Done(s) == [s[0]] + Done(s[1..]);
        assert Done(s)[1..] == Done(s[1..]);
        assert NotDone(s) == NotDone(s[1..]);
        SkipHead(NotDone(s[1..]), s);
      } else {
        assert NotDone(s) == [s[0]] + NotDone(s[1..]);
        assert NotDone(s)[1..] == NotDone(s[1..]);
        assert Done(s) == Done(s[1..]);
        SkipHead(Done(s[1..]), s);
      }
    }
  }

  lemma SkipHead(a: seq<Todo>, b: seq<Todo>)
    requires b != [] && SubsequenceOf(a, b[1..])
    ensures SubsequenceOf(a, b)
  {
  }

  /** A subsequence of a sorted list is sorted: both filters keep the `order` sort. */
  lemma {:induction false} SubsequenceSorted(a: seq<Todo>, b: seq<Todo>)
    requires SubsequenceOf(a, b) && SortedByOrder(b)
    ensures SortedByOrder(a)
    ensures forall t :: t in a ==> t in b
    decreases |b|
  {
    if a != [] && b != [] {
      if a[0] == b[0] && SubsequenceOf(a[1..], b[1..]) {
        var a', b' := a[1..], b[1..];
        SubsequenceSorted(a', b');
        forall j | 0 < j < |a| ensures a[j] in b' && Comparator(a[0]) < Comparator(a[j]) {
          assert a[j] == a'[j - 1] && a'[j - 1] in a';
          var m :| 0 <= m < |b'| && b'[m] == a[j];
          assert b[m + 1] == a[j];
        }
        forall i, j | 0 <= i < j < |a| ensures Comparator(a[i]) < Comparator(a[j]) {
          if i > 0 {
            assert a[i] == a'[i - 1] && a[j] == a'[j - 1];
          }
        }
        forall t | t in a ensures t in b {
          var m :| 0 <= m < |a| && a[m] == t;
        }
      } else {
        SubsequenceSorted(a, b[1..]);
      }
    }
  }

  /** In a list sorted by `order`, `nextOrder()` is larger than every order present
      (1 for the empty list). */
  lemma NextOrderExceeds(s: seq<Todo>)
    requires SortedByOrder(s)
    ensures s == [] ==> NextOrder(s) == 1
    ensures forall t :: t in s ==> Comparator(t) < NextOrder(s)
  {
  }

  /** Appending an item whose order is `nextOrder()` keeps the collection sorted, and
      the new item's order exceeds every order already present. */
  lemma AppendLargerKeepsSorted(s: seq<Todo>, t: Todo)
    requires SortedByOrder(s) && t.order == NextOrder(s)
    ensures SortedByOrder(s + [t])
    ensures forall u :: u in s ==> Comparator(u) < Comparator(t)
  {
    NextOrderExceeds(s);
    var s' := s + [t];
    forall i, j | 0 <= i < j < |s'| ensures Comparator(s'[i]) < Comparator(s'[j]) {
      assert s'[i] in s;
    }
  }

  /** Deleting any item but the last leaves `nextOrder()` unchanged, so the deleted
      item's order is not handed out again (items `1,2,3`, delete `2`: next is `4`). */
  lemma NextOrderAfterDelete(s: seq<Todo>, k: nat)
    requires k + 1 < |s|
    ensures NextOrder(s[..k] + s[k + 1..]) == NextOrder(s)
  {
    var s' := s[..k] + s[k + 1..];
    assert s'[|s'| - 1] == s[|s| - 1];
  }

  /** Deleting the last item lets its order be handed out again: with orders
      strictly increasing, the next order is at most the deleted one. */
  lemma NextOrderReusedAfterDeletingLast(s: seq<Todo>)
    requires |s| >= 2 && SortedByOrder(s)
    ensures NextOrder(s[..|s| - 1]) <= s[|s| - 1].order
  {
    assert s[..|s| - 1][|s| - 2] == s[|s| - 2];
  }

  // ---------------------------------------------------------------------------
  // sum()

  function Add(a: Option<int>, b: Option<int>): Option<int> {
    if a.Some? && b.Some? then Some(a.value + b.value) else None
  }

  /** `parseInt(cal) * parseInt(count)` for one item; `NaN` is absorbing. */
  function Term(t: Todo): Option<int> {
    var c, n := ParseInt(t.cal), ParseInt(t.count);
    if c.Some? && n.Some? then Some(c.value * n.value) else None
  }

  /** What one item adds to `sum()`: nothing when it is done. */
  function Contribution(t: Todo): Option<int> {
    if t.done then Some(0) else Term(t)
  }

  /** `sum()` as a fold from the left, the order in which `each` visits the items. */
  function Total(s: seq<Todo>): Option<int> {
    if s == [] then Some(0) else Add(Total(s[..|s| - 1]), Contribution(s[|s| - 1]))
  }

  lemma {:induction false} TotalAppend(a: seq<Todo>, b: seq<Todo>)
    ensures Total(a + b) == Add(Total(a), Total(b))
    decreases |b|
  {
    if b == [] {
      assert a + b == a;
    } else {
      var b' := b[..|b| - 1];
      assert (a + b)[..|a + b| - 1] == a + b';
      TotalAppend(a, b');
    }
  }

  lemma TotalSingle(t: Todo)
    ensures Total([t]) == Contribution(t)
  {
    assert [t][..0] == [];
  }

  /** The total is `NaN` exactly when some item that is not done has a `cal` or a
      `count` that `parseInt` cannot read. */
  lemma {:induction false} TotalNaNIff(s: seq<Todo>)
    ensures Total(s).None? <==> exists i :: 0 <= i < |s| && !s[i].done && Term(s[i]).None?
  {
    if s != [] {
      var p := s[..|s| - 1];
      TotalNaNIff(p);
      assert forall i :: 0 <= i < |p| ==> p[i] == s[i];
      if Total(s).None? && Total(p).None? {
        var i :| 0 <= i < |p| && !p[i].done && Term(p[i]).None?;
        assert s[i] == p[i];
      }
    }
  }

  /** Splitting the total around one item: the total of the list is the total with
      that item marked done plus the item's own contribution. So toggling a not-done
      item off removes exactly its `cal * count` term, and toggling it back on adds
      that term again. */
  lemma ToggleContribution(s: seq<Todo>, k: nat)
    requires k < |s|
    ensures Total(s) == Add(Total(s[k := s[k].(done := true)]), Contribution(s[k]))
  {
    var s' := s[k := s[k].(done := true)];
    TotalAround(s, k);
    TotalAround(s', k);
    assert s'[..k] == s[..k] && s'[k + 1..] == s[k + 1..];
    assert Contribution(s'[k]) == Some(0);
    AddSwap(Total(s[..k]), Contribution(s[k]), Total(s[k + 1..]));
  }

  /** The total of a list split around the item at `k`. */
  lemma TotalAround(s: seq<Todo>, k: nat)
    requires k < |s|
    ensures Total(s) == Add(Add(Total(s[..k]), Contribution(s[k])), Total(s[k + 1..]))
  {
    assert s == (s[..k] + [s[k]]) + s[k + 1..];
    TotalAppend(s[..k] + [s[k]], s[k + 1..]);
    TotalAppend(s[..k], [s[k]]);
    TotalSingle(s[k]);
  }

  lemma AddSwap(a: Option<int>, c: Option<int>, b: Option<int>)
    ensures Add(Add(a, c), b) == Add(Add(Add(a, Some(0)), b), c)
  {
  }

  /** Items that are done add nothing: the total over the collection equals the
      total over `remaining()`. */
  lemma {:induction false} TotalOfRemaining(s: seq<Todo>)
    ensures Total(s) == Total(Remaining(s))
  {
    RemainingIsNotDone(s);
    TotalNotDone(s);
  }

  lemma {:induction false} TotalNotDone(s: seq<Todo>)
    ensures Total(s) == Total(NotDone(s))
  {
    if s != [] {
      TotalNotDone(s[1..]);
      assert s == [s[0]] + s[1..];
      TotalAppend([s[0]], s[1..]);
      TotalSingle(s[0]);
      if s[0].done {
        assert NotDone(s) == NotDone(s[1..]);
      } else {
        assert NotDone(s) == [s[0]] + NotDone(s[1..]);
        TotalAppend([s[0]], NotDone(s[1..]));
      }
    }
  }

  /** When every item is done the total is 0. */
  lemma {:induction false} TotalAllDone(s: seq<Todo>)
    requires forall i :: 0 <= i < |s| ==> s[i].done
    ensures Total(s) == Some(0)
  {
    if s != [] {
      TotalAllDone(s[..|s| - 1]);
    }
  }

  /** A stored count that starts with `x` (such as `x2`, from the `x`-then-digit
      shape of the count token) reads as `NaN`, so one such item that is not done
      makes the whole total `NaN`. */
  lemma XCountMakesTotalNaN(s: seq<Todo>, k: nat)
    requires k < |s| && !s[k].done && s[k].count != [] && s[k].count[0] == 'x'
    ensures Total(s) == None
  {
    NoLeadingDigit(s[k].count);
    TotalNaNIff(s);
  }

  // ---------------------------------------------------------------------------
  // The collection

  class TodoList {
    var todos: seq<Todo>

    /** The collection is kept sorted by `comparator`. */
    predicate Valid()
      reads this
    {
      SortedByOrder(todos)
    }

    constructor ()
      ensures Valid() && todos == []
    {
      todos := [];
    }

    /** `sum()`: the loop over `each`, accumulating `r +=` for each not-done item. */
    method Sum() returns (r: Option<int>)
      ensures r == Total(todos)
    {
      r := Some(0);
      var i := 0;
      while i < |todos|
        invariant 0 <= i <= |todos|
        invariant r == Total(todos[..i])
      {
        assert todos[..i + 1][..i] == todos[..i];
        if !todos[i].done {
          var term := Term(todos[i]);
          r := if r.Some? && term.Some? then Some(r.value + term.value) else None;
        }
        i := i + 1;
      }
      assert todos[..i] == todos;
    }

    /** `toggle()` on the item at position `k`: its `done` flag flips, nothing else
        changes. */
    method Toggle(k: nat)
      requires Valid() && k < |todos|
      modifies this
      ensures Valid()
      ensures todos == old(todos)[k := old(todos)[k].(done := !old(todos)[k].done)]
    {
      todos := todos[k := todos[k].(done := !todos[k].done)];
    }

    /** `toggleAllComplete()`: every item's `done` is set to the checkbox state. */
    method ToggleAllComplete(checked: bool)
      requires Valid()
      modifies this
      ensures Valid()
      ensures |todos| == |old(todos)|
      ensures forall i :: 0 <= i < |todos| ==> todos[i] == old(todos)[i].(done := checked)
    {
      var i := 0;
      while i < |todos|
        invariant 0 <= i <= |todos| == |old(todos)|
        invariant forall j :: 0 <= j < i ==> todos[j] == old(todos)[j].(done := checked)
        invariant forall j :: i <= j < |todos| ==> todos[j] == old(todos)[j]
      {
        todos := todos[i := todos[i].(done := checked)];
        i := i + 1;
      }
    }

    /** `clearCompleted()`: every item in `done()` is destroyed, which leaves
        `remaining()`. */
    method ClearCompleted()
      requires Valid()
      modifies this
      ensures Valid()
      ensures todos == Remaining(old(todos))
    {
      RemainingIsNotDone(todos);
      DoneSubsequence(todos);
      SubsequenceSorted(NotDone(todos), todos);
      todos := Remaining(todos);
    }

    /** The creation step of `createOnEnter`: on Enter with a non-empty line, the line
        is parsed and a Todo is created with the line as title, the parsed food, the
        calorie token's text and the count's text, at the next order. The code reads
        `z.cal.value` unguarded, so it only gets as far as creation for a line that
        has a digit run left after count removal. */
    method CreateOnEnter(keyCode: int, line: string)
      requires Valid()
      requires keyCode == 13 && line != "" ==> Extract(line).cal.Some?
      modifies this
      ensures Valid()
      ensures keyCode != 13 || line == "" ==> todos == old(todos)
      ensures keyCode == 13 && line != "" ==>
        var z := Extract(line);
        && todos == old(todos) + [NewTodo(line, z.food, z.cal.value.value,
                                          if z.count.Some? then z.count.value.value else "1x",
                                          NextOrder(old(todos)))]
        && forall t :: t in old(todos) ==> Comparator(t) < Comparator(todos[|todos| - 1])
    {
      if keyCode != 13 { return; }
      if line == "" { return; }
      var z := ChewFood(line);
      ghost var e := Extract(line);
      assert z.count.Value() == if e.count.Some? then e.count.value.value else "1x";
      var t := NewTodo(line, z.food, z.cal.value.value, z.count.Value(), NextOrder(todos));
      AppendLargerKeepsSorted(todos, t);
      todos := todos + [t];
    }
  }

  /** The count text stored on a created Todo reads back as its digit when it is
      digit-then-`x` with a digit other than `0`, and as `NaN` when it is `x`-then-digit
      or `0x` (which `parseInt` takes for an empty hexadecimal number). */
  lemma CountTextParses(v: string)
    requires |v| == 2
    requires (IsDigit(v[0]) && v[1] == 'x') || (v[0] == 'x' && IsDigit(v[1]))
    ensures ParseInt(v) == if IsDigit(v[0]) && v[0] != '0' then Some(DigitValue(v[0])) else None
  {
    if IsDigit(v[0]) && v[0] != '0' {
      assert v == [v[0]] + [v[1]];
      DecimalPrefix([v[0]], [v[1]]);
    }
  }

  /** A Todo created from a line carries a calorie text that `parseInt` reads as the
      number written, and a count text that reads as described by CountTextParses
      (the default `1x` reads as 1). */
  lemma CreatedTodoParses(line: string)
    requires Extract(line).cal.Some?
    ensures var c := Extract(line).cal.value.value; ParseInt(c) == Some(DecimalValue(c))
    ensures var z := Extract(line);
      z.count.Some? ==>
        var v := z.count.value.value;
        ParseInt(v) == if IsDigit(v[0]) && v[0] != '0' then Some(DigitValue(v[0])) else None
    ensures ParseInt("1x") == Some(1)
  {
    var z := Extract(line);
    var rest := AfterCount(line);
    CalIsLeftmostRunAfterCount(line);
    var c := z.cal.value.value;
    assert c != [] && AllDigits(c);
    CalTextParses(c);
    if z.count.Some? {
      CountIsLeftmostPair(line);
      CountTextParses(z.count.value.value);
    }
    DefaultCountParses();
  }

  /** The default count `1x` of a line without a count token reads as 1. */
  lemma DefaultCountParses()
    ensures ParseInt("1x") == Some(1)
  {
    CountTextParses("1x");
  }

  /** A calorie text, a non-empty run of digits, reads as the number it writes. */
  lemma CalTextParses(c: string)
    requires c != [] && AllDigits(c)
    ensures ParseInt(c) == Some(DecimalValue(c))
  {
    assert c + [] == c;
    DecimalPrefix(c, []);
  }
}
