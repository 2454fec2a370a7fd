// Column lists in MySQL grants: "SELECT (b, a)" and "SELECT (`a`,`b`)" have one spelling, so that
// what the spec asks for can be compared with what the server reads back.

module ColumnGrants {
  import opened Wrappers
  import opened Text
  import Sorting

  /** A column without the blanks around it and the backticks inside those. */
  function Bare(col: string): string {
    Trim(TrimSpace(col), {'`'})
  }

  function BareAll(cols: seq<string>): (r: seq<string>)
    ensures |r| == |cols| && forall i :: 0 <= i < |r| ==> r[i] == Bare(cols[i])
  {
    seq(|cols|, i requires 0 <= i < |cols| => Bare(cols[i]))
  }

  /** There is text after a first parenthesis. */
  predicate HasList(statement: string) {
    |Split(statement, '(')| >= 2
  }

  function Prefix(statement: string): string {
    Split(statement, '(')[0]
  }

  /** The columns as they are written, up to a second parenthesis. */
  function Columns(statement: string): seq<string>
    requires HasList(statement)
  {
    Split(TrimRight(Split(statement, '(')[1], {')'}), ',')
  }

  /** The canonical text of a statement; None where indexing the text after "(" would panic. */
  function Canonical(statement: string): Option<string> {
    if !HasList(statement) then None
    else Some(Prefix(statement) + "(" + Join(Sorting.Sorted(BareAll(Columns(statement))), ", ") + ")")
  }

  method SortColumnOrder(statement: string) returns (r: Option<string>)
    ensures r == Canonical(statement)
  {
    var tmp := Split(statement, '(');
    if |tmp| < 2 {
      return None;
    }
    var columns := Split(TrimRight(tmp[1], {')'}), ',');
    ghost var given := columns;
    for i := 0 to |columns|
      invariant |columns| == |given|
      invariant forall j :: 0 <= j < |given| ==> columns[j] == if j < i then Bare(given[j]) else given[j]
    {
      columns := columns[i := Bare(columns[i])];
    }
    assert columns == BareAll(given);
    r := Some(tmp[0] + "(" + Join(Sorting.Sorted(columns), ", ") + ")");
  }

  // ---------- Statements with a column list ----------

  /** No character that the text is cut at; a closing parenthesis is not one. */
  predicate Unmarked(col: string) {
    '(' !in col && ',' !in col
  }

  predicate AllUnmarked(cols: seq<string>) {
    forall i :: 0 <= i < |cols| ==> Unmarked(cols[i])
  }

  function Statement(prefix: string, cols: seq<string>): string {
    prefix + "(" + Join(cols, ",") + ")"
  }

  /** The blanks that a join with ", " puts in front of every column but the first. */
  function Spaced(cols: seq<string>): (r: seq<string>)
    ensures |r| == |cols|
    ensures forall i :: 0 <= i < |r| ==> r[i] == if i == 0 then cols[0] else " " + cols[i]
  {
    seq(|cols|, i requires 0 <= i < |cols| => if i == 0 then cols[0] else " " + cols[i])
  }

  lemma {:induction false} JoinSpaced(cols: seq<string>)
    ensures Join(cols, ", ") == Join(Spaced(cols), ",")
  {
    if |cols| > 1 {
      JoinSpaced(cols[1..]);
      var rest := Spaced(cols)[1..];
      assert rest == [" " + cols[1]] + Spaced(cols[1..])[1..];
      JoinFirst(" ", Spaced(cols[1..]));
      assert Spaced(cols[1..])[0] == cols[1];
      assert cols[0] + ", " + Join(cols[1..], ", ") == cols[0] + "," + (" " + Join(cols[1..], ", "));
    } else if |cols| == 1 {
      assert Spaced(cols)[0] == cols[0];
    }
  }

  lemma JoinFirst(x: string, cols: seq<string>)
    requires cols != []
    ensures Join([x + cols[0]] + cols[1..], ",") == x + Join(cols, ",")
  {
    assert ([x + cols[0]] + cols[1..])[1..] == cols[1..];
    if |cols| > 1 {
      assert x + cols[0] + "," + Join(cols[1..], ",") == x + (cols[0] + "," + Join(cols[1..], ","));
    }
  }

  lemma {:induction false} SplitPart(s: string, sep: char, c: char)
    requires c !in s
    ensures forall p :: p in Split(s, sep) ==> c !in p
  {
    if s != "" {
      SplitPart(s[1..], sep, c);
    }
  }

  lemma {:induction false} TrimLeftPart(s: string, cut: set<char>)
    ensures |TrimLeft(s, cut)| <= |s|
    ensures |TrimLeft(s, cut)| == |s| ==> TrimLeft(s, cut) == s
    ensures forall c :: c in TrimLeft(s, cut) ==> c in s
  {
    if s != "" && s[0] in cut {
      TrimLeftPart(s[1..], cut);
    }
  }

  lemma {:induction false} TrimRightPart(s: string, cut: set<char>)
    ensures |TrimRight(s, cut)| <= |s|
    ensures |TrimRight(s, cut)| == |s| ==> TrimRight(s, cut) == s
    ensures forall c :: c in TrimRight(s, cut) ==> c in s
  {
    if s != "" && s[|s| - 1] in cut {
      TrimRightPart(s[..|s| - 1], cut);
    }
  }

  lemma BarePart(col: string)
    ensures |Bare(col)| <= |col|
    ensures |Bare(col)| == |col| ==> Bare(col) == col
    ensures Unmarked(col) ==> Unmarked(Bare(col))
    ensures Bare(" " + col) == Bare(col)
  {
    var left := TrimLeft(col, SPACES);
    TrimLeftPart(col, SPACES);
    TrimRightPart(left, SPACES);
    var mid := TrimSpace(col);
    TrimLeftPart(mid, {'`'});
    TrimRightPart(TrimLeft(mid, {'`'}), {'`'});
    TrimDropsFirst(' ', col, SPACES);
  }

  /** Every statement with a list has a prefix and unmarked columns, and its canonical text is made of those. */
  lemma CanonicalOf(statement: string)
    requires HasList(statement)
    ensures '(' !in Prefix(statement) && Columns(statement) != [] && AllUnmarked(Columns(statement))
    ensures Canonical(statement) == Some(Statement(Prefix(statement), Spaced(Sorting.Sorted(BareAll(Columns(statement))))))
  {
    var tmp := Split(statement, '(');
    SplitClean(statement, '(');
    assert tmp[0] in tmp && tmp[1] in tmp;
    var text := TrimRight(tmp[1], {')'});
    TrimRightPart(tmp[1], {')'});
    SplitClean(text, ',');
    SplitPart(text, ',', '(');
    JoinSpaced(Sorting.Sorted(BareAll(Columns(statement))));
  }

  lemma PanicsExactly(statement: string)
    ensures Canonical(statement) == None <==> '(' !in statement
  {
    if '(' !in statement {
      SplitPlain(statement, '(');
    } else {
      TwoParts(statement);
    }
  }

  lemma {:induction false} TwoParts(s: string)
    requires '(' in s
    ensures |Split(s, '(')| >= 2
  {
    if s[0] != '(' {
      TwoParts(s[1..]);
    }
  }

  // ---------- Reading a statement back ----------

  lemma {:induction false} SplitJoin(cols: seq<string>)
    requires cols != [] && AllUnmarked(cols)
    ensures Split(Join(cols, ","), ',') == cols && '(' !in Join(cols, ",")
  {
    if |cols| == 1 {
      SplitPlain(cols[0], ',');
    } else {
      SplitJoin(cols[1..]);
      SplitCons(cols[0], ',', Join(cols[1..], ","));
    }
  }

  /** The closing parentheses that the last column ends in are lost. */
  function Chopped(cols: seq<string>): seq<string>
    requires cols != []
  {
    cols[..|cols| - 1] + [TrimRight(cols[|cols| - 1], {')'})]
  }

  lemma {:induction false} TrimRightTail(a: string, b: string, cut: set<char>)
    requires a != "" && a[|a| - 1] !in cut
    ensures TrimRight(a + b, cut) == a + TrimRight(b, cut)
  {
    if b == "" {
      assert a + b == a;
    } else if b[|b| - 1] in cut {
      TrimRightTail(a, b[..|b| - 1], cut);
      assert (a + b)[..|a + b| - 1] == a + b[..|b| - 1];
    }
  }

  lemma {:induction false} TrimJoin(cols: seq<string>)
    requires cols != []
    ensures TrimRight(Join(cols, ","), {')'}) == Join(Chopped(cols), ",")
  {
    if |cols| > 1 {
      TrimJoin(cols[1..]);
      TrimRightTail(cols[0] + ",", Join(cols[1..], ","), {')'});
      assert Chopped(cols)[1..] == Chopped(cols[1..]);
    }
  }

  lemma ReadBack(prefix: string, cols: seq<string>)
    requires '(' !in prefix && cols != [] && AllUnmarked(cols)
    ensures HasList(Statement(prefix, cols))
    ensures Prefix(Statement(prefix, cols)) == prefix && Columns(Statement(prefix, cols)) == Chopped(cols)
  {
    var text := Join(cols, ",") + ")";
    SplitJoin(cols);
    SplitPlain(text, '(');
    assert Statement(prefix, cols) == prefix + ['('] + text;
    SplitCons(prefix, '(', text);
    assert text[..|text| - 1] == Join(cols, ",");
    TrimJoin(cols);
    ChoppedUnmarked(cols);
    SplitJoin(Chopped(cols));
  }

  lemma ChoppedUnmarked(cols: seq<string>)
    requires cols != [] && AllUnmarked(cols)
    ensures AllUnmarked(Chopped(cols))
  {
    TrimRightPart(cols[|cols| - 1], {')'});
  }

  // ---------- One text for one set of columns ----------

  lemma SortedUnmarked(cols: seq<string>)
    requires AllUnmarked(cols)
    ensures AllUnmarked(Sorting.Sorted(BareAll(cols))) && AllUnmarked(Spaced(Sorting.Sorted(BareAll(cols))))
  {
    var sorted := Sorting.Sorted(BareAll(cols));
    forall i | 0 <= i < |sorted| ensures Unmarked(sorted[i]) {
      assert sorted[i] in multiset(sorted);
      assert sorted[i] in BareAll(cols);
      var j :| 0 <= j < |cols| && BareAll(cols)[j] == sorted[i];
      BarePart(cols[j]);
    }
  }

  /** A statement determines its prefix and its columns. */
  lemma StatementInjective(p1: string, c1: seq<string>, p2: string, c2: seq<string>)
    requires '(' !in p1 && '(' !in p2 && c1 != [] && c2 != [] && AllUnmarked(c1) && AllUnmarked(c2)
    requires Statement(p1, c1) == Statement(p2, c2)
    ensures p1 == p2 && c1 == c2
  {
    var t1, t2 := Join(c1, ",") + ")", Join(c2, ",") + ")";
    SplitJoin(c1);
    SplitJoin(c2);
    assert Statement(p1, c1) == p1 + ['('] + t1;
    assert Statement(p2, c2) == p2 + ['('] + t2;
    SplitCons(p1, '(', t1);
    SplitCons(p2, '(', t2);
    SplitPlain(t1, '(');
    SplitPlain(t2, '(');
    assert [p1] + [t1] == [p2] + [t2];
    assert p1 == ([p1] + [t1])[0] && t1 == ([p1] + [t1])[1];
    assert t1[..|t1| - 1] == Join(c1, ",") && t2[..|t2| - 1] == Join(c2, ",");
  }

  lemma SpacedInjective(a: seq<string>, b: seq<string>)
    requires Spaced(a) == Spaced(b)
    ensures a == b
  {
    assert |a| == |Spaced(a)| == |Spaced(b)| == |b|;
    forall i | 0 <= i < |a| ensures a[i] == b[i] {
      assert Spaced(a)[i] == Spaced(b)[i];
      assert i > 0 ==> (" " + a[i])[1..] == a[i] && (" " + b[i])[1..] == b[i];
    }
  }

  lemma TextsEqual(p1: string, c1: seq<string>, p2: string, c2: seq<string>)
    requires '(' !in p1 && '(' !in p2 && c1 != [] && c2 != [] && AllUnmarked(Spaced(c1)) && AllUnmarked(Spaced(c2))
    ensures Statement(p1, Spaced(c1)) == Statement(p2, Spaced(c2)) <==> p1 == p2 && c1 == c2
  {
    if Statement(p1, Spaced(c1)) == Statement(p2, Spaced(c2)) {
      StatementInjective(p1, Spaced(c1), p2, Spaced(c2));
      SpacedInjective(c1, c2);
    }
  }

  /** Any two statements get the same text exactly when the prefix is the same and the columns are the same up to order, blanks and backticks. */
  lemma SameTextExactly(a: string, b: string)
    requires HasList(a) && HasList(b)
    ensures Canonical(a) == Canonical(b) <==>
      Prefix(a) == Prefix(b) && multiset(BareAll(Columns(a))) == multiset(BareAll(Columns(b)))
  {
    CanonicalOf(a);
    CanonicalOf(b);
    SortedUnmarked(Columns(a));
    SortedUnmarked(Columns(b));
    Sorting.SortedSame(BareAll(Columns(a)), BareAll(Columns(b)));
    TextsEqual(Prefix(a), Sorting.Sorted(BareAll(Columns(a))), Prefix(b), Sorting.Sorted(BareAll(Columns(b))));
  }

  // ---------- Doing it twice ----------

  function Length(cols: seq<string>): nat {
    if cols == [] then 0 else |cols[0]| + Length(cols[1..])
  }

  lemma {:induction false} LengthInsert(x: string, xs: seq<string>)
    requires Sorting.Ordered(xs)
    ensures Length(Sorting.Insert(x, xs)) == |x| + Length(xs)
  {
    var r := Sorting.Insert(x, xs);
    if xs == [] || Sorting.Leq(x, xs[0]) {
      assert r[1..] == xs;
    } else {
      LengthInsert(x, xs[1..]);
      assert r[1..] == Sorting.Insert(x, xs[1..]);
    }
  }

  lemma {:induction false} LengthSorted(xs: seq<string>)
    ensures Length(Sorting.Sorted(xs)) == Length(xs)
  {
    if xs != [] {
      LengthSorted(xs[1..]);
      LengthInsert(xs[0], Sorting.Sorted(xs[1..]));
    }
  }

  /** Baring never lengthens, so if the total stays the same nothing was bared. */
  lemma {:induction false} LengthBare(cols: seq<string>)
    ensures Length(BareAll(cols)) <= Length(cols)
    ensures Length(BareAll(cols)) == Length(cols) ==> BareAll(cols) == cols
  {
    if cols != [] {
      LengthBare(cols[1..]);
      BarePart(cols[0]);
      assert BareAll(cols)[1..] == BareAll(cols[1..]);
      assert cols == [cols[0]] + cols[1..];
    }
  }

  lemma {:induction false} LengthLast(cols: seq<string>)
    requires cols != []
    ensures Length(cols) == Length(cols[..|cols| - 1]) + |cols[|cols| - 1]|
  {
    if |cols| > 1 {
      LengthLast(cols[1..]);
      assert cols[1..][..|cols| - 2] == cols[..|cols| - 1][1..];
    }
  }

  predicate EndsInParenthesis(col: string) {
    col != "" && col[|col| - 1] == ')'
  }

  lemma TrimShortens(col: string)
    ensures if EndsInParenthesis(col) then |TrimRight(col, {')'})| < |col| else TrimRight(col, {')'}) == col
  {
    if EndsInParenthesis(col) {
      TrimRightPart(col[..|col| - 1], {')'});
    }
  }

  lemma LengthSnoc(cols: seq<string>, last: string)
    ensures Length(cols + [last]) == Length(cols) + |last|
  {
    LengthLast(cols + [last]);
    assert (cols + [last])[..|cols|] == cols;
  }

  /** Chopping shortens exactly the lists whose last column ends in a parenthesis. */
  lemma ChoppedLength(cols: seq<string>)
    requires cols != []
    ensures if EndsInParenthesis(cols[|cols| - 1]) then Length(Chopped(cols)) < Length(cols) else Chopped(cols) == cols
  {
    var front, last := cols[..|cols| - 1], cols[|cols| - 1];
    assert cols == front + [last];
    TrimShortens(last);
    LengthSnoc(front, last);
    LengthSnoc(front, TrimRight(last, {')'}));
  }

  lemma BareSpace(col: string)
    ensures Bare(" " + col) == Bare(col)
    ensures Bare(TrimRight(" " + col, {')'})) == Bare(TrimRight(col, {')'}))
  {
    BarePart(col);
    TrimRightTail(" ", col, {')'});
    BarePart(TrimRight(col, {')'}));
  }

  lemma BareAllSnoc(front: seq<string>, last: string)
    ensures BareAll(front + [last]) == BareAll(front) + [Bare(last)]
  {
  }

  lemma BareSpacedFront(cols: seq<string>, n: nat)
    requires n <= |cols|
    ensures BareAll(Spaced(cols)[..n]) == BareAll(cols[..n])
  {
    forall i | 0 <= i < n ensures Bare(Spaced(cols)[i]) == Bare(cols[i]) {
      BareSpace(cols[i]);
    }
  }

  lemma BareChopped(cols: seq<string>)
    requires cols != []
    ensures BareAll(Chopped(Spaced(cols))) == BareAll(Chopped(cols))
  {
    var n := |cols| - 1;
    BareAllSnoc(Spaced(cols)[..n], TrimRight(Spaced(cols)[n], {')'}));
    BareAllSnoc(cols[..n], TrimRight(cols[n], {')'}));
    BareSpacedFront(cols, n);
    BareSpace(cols[n]);
  }

  lemma SortedBareFixed(cols: seq<string>)
    requires Sorting.Ordered(cols)
    ensures Sorting.Sorted(BareAll(cols)) == cols <==> AllBare(cols)
  {
    if Sorting.Sorted(BareAll(cols)) == cols {
      LengthSorted(BareAll(cols));
      LengthBare(cols);
    } else if AllBare(cols) {
      assert BareAll(cols) == cols;
      Sorting.SortedFixed(cols);
    }
  }

  lemma AllThrough(cols: seq<string>, sorted: seq<string>)
    requires multiset(sorted) == multiset(cols)
    ensures AllBare(sorted) <==> AllBare(cols)
  {
    forall x ensures x in sorted <==> x in cols {
      assert x in sorted <==> x in multiset(sorted);
      assert x in cols <==> x in multiset(cols);
    }
    assert AllBare(sorted) <==> forall x :: x in sorted ==> Bare(x) == x;
    assert AllBare(cols) <==> forall x :: x in cols ==> Bare(x) == x;
  }

  /** The ordered bare columns are what a second reading gives exactly when each is its own bare form and the last does not end in a parenthesis. */
  lemma SecondReading(sorted: seq<string>)
    requires sorted != [] && Sorting.Ordered(sorted)
    ensures Sorting.Sorted(BareAll(Chopped(Spaced(sorted)))) == sorted <==>
      AllBare(sorted) && !EndsInParenthesis(sorted[|sorted| - 1])
  {
    BareChopped(sorted);
    ChoppedLength(sorted);
    LengthSorted(BareAll(Chopped(sorted)));
    LengthBare(Chopped(sorted));
    SortedBareFixed(sorted);
  }

  lemma CanonicalTwice(statement: string)
    requires HasList(statement)
    ensures var sorted := Sorting.Sorted(BareAll(Columns(statement)));
      && sorted != []
      && (Canonical(Statement(Prefix(statement), Spaced(sorted))) == Some(Statement(Prefix(statement), Spaced(sorted))) <==>
           Sorting.Sorted(BareAll(Chopped(Spaced(sorted)))) == sorted)
  {
    var prefix, sorted := Prefix(statement), Sorting.Sorted(BareAll(Columns(statement)));
    CanonicalOf(statement);
    SortedUnmarked(Columns(statement));
    ReadBack(prefix, Spaced(sorted));
    CanonicalOf(Statement(prefix, Spaced(sorted)));
    ChoppedUnmarked(Spaced(sorted));
    SortedUnmarked(Chopped(Spaced(sorted)));
    TextsEqual(prefix, Sorting.Sorted(BareAll(Chopped(Spaced(sorted)))), prefix, sorted);
  }

  /**
    The canonical text of a statement, of any statement, is its own canonical text exactly when no column has
    blanks just inside its backticks and the column that sorts last does not end in a parenthesis.
   */
  lemma IdempotentExactly(statement: string)
    requires HasList(statement)
    ensures Canonical(statement).Some? && Columns(statement) != []
    ensures Canonical(Canonical(statement).value) == Canonical(statement) <==>
      AllCleanInside(Columns(statement)) && !EndsInParenthesis(LastColumn(Columns(statement)))
  {
    CanonicalFixed(statement);
    SecondReadingOf(Columns(statement));
  }

  /** The ordered bare columns of a statement, and those of its canonical text. */
  ghost function InOrder(cols: seq<string>): seq<string> {
    Sorting.Sorted(BareAll(cols))
  }

  /** The bare column that sorts last. */
  ghost function LastColumn(cols: seq<string>): string
    requires cols != []
  {
    InOrder(cols)[|cols| - 1]
  }

  ghost predicate ReadsBack(cols: seq<string>)
    requires cols != []
  {
    |InOrder(cols)| == |cols| && InOrder(Chopped(Spaced(InOrder(cols)))) == InOrder(cols)
  }

  lemma CanonicalFixed(statement: string)
    requires HasList(statement)
    ensures Canonical(statement).Some? && Columns(statement) != []
    ensures InOrder(Columns(statement)) != []
    ensures Canonical(Canonical(statement).value) == Canonical(statement) <==> ReadsBack(Columns(statement))
  {
    CanonicalOf(statement);
    CanonicalTwice(statement);
    var text := Statement(Prefix(statement), Spaced(Sorting.Sorted(BareAll(Columns(statement)))));
    assert Canonical(statement).value == text;
  }

  lemma SecondReadingOf(cols: seq<string>)
    requires cols != []
    ensures ReadsBack(cols) <==> AllCleanInside(cols) && !EndsInParenthesis(LastColumn(cols))
  {
    var sorted := InOrder(cols);
    SecondReading(sorted);
    AllThrough(BareAll(cols), sorted);
    AllBareExactly(cols);
  }

  ghost predicate AllBare(cols: seq<string>) {
    forall i :: 0 <= i < |cols| ==> Bare(cols[i]) == cols[i]
  }

  /** No column has blanks just inside its backticks. */
  ghost predicate AllCleanInside(cols: seq<string>) {
    forall i :: 0 <= i < |cols| ==> Clean(Bare(cols[i]), SPACES)
  }

  lemma AllBareExactly(cols: seq<string>)
    ensures AllBare(BareAll(cols)) <==> AllCleanInside(cols)
  {
    forall i | 0 <= i < |cols| ensures Bare(BareAll(cols)[i]) == BareAll(cols)[i] <==> Clean(Bare(cols[i]), SPACES) {
      BareTwiceExactly(cols[i]);
    }
  }

  lemma {:induction false} TrimmedRight(s: string, cut: set<char>)
    ensures var r := TrimRight(s, cut); r == "" || (r[|r| - 1] !in cut && s != "" && r[0] == s[0])
  {
    if s != "" && s[|s| - 1] in cut {
      TrimmedRight(s[..|s| - 1], cut);
    }
  }

  lemma {:induction false} TrimmedLeft(s: string, cut: set<char>)
    ensures var r := TrimLeft(s, cut); r == "" || r[0] !in cut
  {
    if s != "" && s[0] in cut {
      TrimmedLeft(s[1..], cut);
    }
  }

  lemma TrimmedIsClean(s: string, cut: set<char>)
    ensures Clean(Trim(s, cut), cut)
  {
    TrimmedLeft(s, cut);
    TrimmedRight(TrimLeft(s, cut), cut);
  }

  lemma TrimFixesClean(s: string, cut: set<char>)
    ensures Trim(s, cut) == s <==> Clean(s, cut)
  {
    TrimmedIsClean(s, cut);
    if Clean(s, cut) {
      TrimClean(s, cut);
    }
  }

  lemma BareTwiceExactly(col: string)
    ensures Bare(Bare(col)) == Bare(col) <==> Clean(Bare(col), SPACES)
  {
    var b := Bare(col);
    TrimmedIsClean(TrimSpace(col), {'`'});
    TrimFixesClean(b, SPACES);
    if Clean(b, SPACES) {
      TrimClean(b, {'`'});
    } else {
      TrimLeftPart(b, SPACES);
      TrimRightPart(TrimLeft(b, SPACES), SPACES);
      var t := TrimSpace(b);
      TrimLeftPart(t, {'`'});
      TrimRightPart(TrimLeft(t, {'`'}), {'`'});
      assert |t| < |b| by { TrimShort(b); }
    }
  }

  lemma TrimShort(s: string)
    requires TrimSpace(s) != s
    ensures |TrimSpace(s)| < |s|
  {
    TrimLeftPart(s, SPACES);
    TrimRightPart(TrimLeft(s, SPACES), SPACES);
  }

  /** Such a column: the blank inside the backticks goes only the second time. */
  lemma BlankInsideBackticks()
    ensures Bare("` a`") == " a" && Bare(" a") == "a"
  {
    TrimClean("` a`", SPACES);
    assert "` a`"[1..] == " a`";
    assert TrimLeft("` a`", {'`'}) == " a`";
    assert " a`"[..2] == " a";
    assert TrimRight(" a`", {'`'}) == " a";
    assert " a" == [' '] + "a";
    TrimDropsFirst(' ', "a", SPACES);
    TrimClean("a", SPACES);
    TrimClean("a", {'`'});
  }

  /** The other failing kind: a parenthesis that a column ends in is kept the first time and, if the column sorts last, lost the second. */
  lemma ParenthesisLost(prefix: string, cols: seq<string>)
    requires '(' !in prefix && cols != [] && AllUnmarked(cols)
    requires !EndsInParenthesis(cols[|cols| - 1]) && EndsInParenthesis(LastColumn(cols))
    ensures var s := Statement(prefix, cols); HasList(s) && Canonical(s).Some? && Canonical(Canonical(s).value) != Canonical(s)
  {
    ReadBack(prefix, cols);
    ChoppedLength(cols);
    IdempotentExactly(Statement(prefix, cols));
  }

  /** Such columns are those of "S(b),a)". */
  lemma ParenthesisInColumn()
    ensures !EndsInParenthesis(["b)", "a"][1]) && EndsInParenthesis(LastColumn(["b)", "a"]))
  {
    ParenthesisSortsLast();
  }

  lemma ParenthesisSortsLast()
    ensures Sorting.Sorted(BareAll(["b)", "a"])) == ["a", "b)"]
  {
    PlainIsBare("b)");
    PlainIsBare("a");
    assert BareAll(["b)", "a"]) == ["b)", "a"];
    Sorting.PairOrdered("a", "b)");
    Sorting.SortedIs(["b)", "a"], ["a", "b)"]);
  }

  // ---------- Plain column names ----------

  predicate Plain(col: string) {
    Unmarked(col) && ')' !in col && '`' !in col && Clean(col, SPACES)
  }

  /** Plain column names are their own bare form, so for them all of the above holds outright. */
  lemma PlainIsBare(col: string)
    requires Clean(col, SPACES) && '`' !in col
    ensures Bare(col) == col
  {
    TrimClean(col, SPACES);
    TrimClean(col, {'`'});
  }

  lemma PlainColumns(cols: seq<string>)
    requires cols != [] && forall i :: 0 <= i < |cols| ==> Plain(cols[i])
    ensures BareAll(Chopped(Spaced(cols))) == cols && AllUnmarked(Spaced(cols))
  {
    BareChopped(cols);
    ChoppedLength(cols);
    forall i | 0 <= i < |cols| ensures Bare(cols[i]) == cols[i] {
      PlainIsBare(cols[i]);
    }
  }

  /** Of plain columns the canonical text is the same columns in order, it is its own canonical text, and it is shared exactly by the statements with the same prefix and the same columns. */
  lemma PlainStatements(p1: string, c1: seq<string>, p2: string, c2: seq<string>)
    requires '(' !in p1 && c1 != [] && forall i :: 0 <= i < |c1| ==> Plain(c1[i])
    requires '(' !in p2 && c2 != [] && forall i :: 0 <= i < |c2| ==> Plain(c2[i])
    ensures var s1, s2 := Statement(p1, Spaced(c1)), Statement(p2, Spaced(c2)); var text := Statement(p1, Spaced(Sorting.Sorted(c1)));
      && Canonical(s1) == Some(text) == Canonical(text)
      && (Canonical(s1) == Canonical(s2) <==> p1 == p2 && multiset(c1) == multiset(c2))
  {
    PlainColumns(c1);
    PlainColumns(c2);
    ReadBack(p1, Spaced(c1));
    ReadBack(p2, Spaced(c2));
    CanonicalOf(Statement(p1, Spaced(c1)));
    SameTextExactly(Statement(p1, Spaced(c1)), Statement(p2, Spaced(c2)));
    var sorted := Sorting.Sorted(c1);
    forall i | 0 <= i < |sorted| ensures Plain(sorted[i]) {
      assert sorted[i] in multiset(c1);
    }
    PlainColumns(sorted);
    ReadBack(p1, Spaced(sorted));
    CanonicalOf(Statement(p1, Spaced(sorted)));
    Sorting.SortedFixed(sorted);
  }
}
