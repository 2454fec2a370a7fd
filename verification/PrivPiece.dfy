// The privilege list of one MySQL scope, "SELECT (a, b), INSERT", cut at the commas that are not
// inside parentheses. Parentheses do not nest: a second '(' inside is text, and so is a ')' outside.

module PrivPiece {
  import opened Text

  /** Whether a text that starts inside (or outside) parentheses ends inside them. */
  function Inside(s: string, inside: bool): bool {
    if s == "" then inside
    else if inside then Inside(s[1..], s[0] != ')')
    else Inside(s[1..], s[0] == '(')
  }

  /** The text with everything in parentheses, and the parentheses, removed. */
  function Strip(s: string, inside: bool): string {
    if s == "" then ""
    else if inside then Strip(s[1..], s[0] != ')')
    else if s[0] == '(' then Strip(s[1..], true)
    else [s[0]] + Strip(s[1..], false)
  }

  /** The pieces between commas outside parentheses; always at least one, possibly empty. */
  function Pieces(s: string, inside: bool): (pieces: seq<string>)
    ensures |pieces| >= 1
  {
    if s == "" then [""]
    else if !inside && s[0] == ',' then [""] + Pieces(s[1..], false)
    else
      var rest := Pieces(s[1..], if inside then s[0] != ')' else s[0] == '(');
      [[s[0]] + rest[0]] + rest[1..]
  }

  /** What the parser does with the last piece: an empty one is not an item. */
  function DropEmptyLast(pieces: seq<string>): seq<string> {
    if pieces != [] && pieces[|pieces| - 1] == "" then pieces[..|pieces| - 1] else pieces
  }

  function Items(s: string): seq<string> {
    DropEmptyLast(Pieces(s, false))
  }

  function StripAll(pieces: seq<string>): (r: seq<string>)
    ensures |r| == |pieces|
    ensures forall i :: 0 <= i < |r| ==> r[i] == Strip(pieces[i], false)
  {
    seq(|pieces|, i requires 0 <= i < |pieces| => Strip(pieces[i], false))
  }

  // ---------- The loop ----------

  lemma {:induction false} Append(s: string, inside: bool, c: char)
    ensures Inside(s + [c], inside) == if Inside(s, inside) then c != ')' else c == '('
    ensures Strip(s + [c], inside) == Strip(s, inside) + if Inside(s, inside) || c == '(' then "" else [c]
  {
    if s == "" {
      assert (s + [c])[1..] == "";
    } else {
      assert (s + [c])[1..] == s[1..] + [c];
      Append(s[1..], if inside then s[0] != ')' else s[0] == '(', c);
    }
  }

  /** Items already cut off, the item in hand, and what the rest of the text adds to them. */
  function Extended(privs: seq<string>, current: string, rest: seq<string>): seq<string>
    requires rest != []
  {
    privs + ([current + rest[0]] + rest[1..])
  }

  lemma ExtendedBare(privs: seq<string>, current: string, rest: seq<string>)
    requires rest != []
    ensures Extended(privs, "", rest) == privs + rest
    ensures Extended(privs, current, [""]) == privs + [current]
    ensures Extended(privs, current, [""] + rest) == privs + [current] + rest
  {
    assert "" + rest[0] == rest[0] && current + "" == current;
    assert [rest[0]] + rest[1..] == rest;
    assert ([""] + rest)[1..] == rest;
  }

  lemma TakeComma(privs: seq<string>, current: string, s: string)
    requires s != "" && s[0] == ','
    ensures Extended(privs, current, Pieces(s, false)) == Extended(privs + [current], "", Pieces(s[1..], false))
  {
    var rest := Pieces(s[1..], false);
    ExtendedBare(privs, current, rest);
    ExtendedBare(privs + [current], current, rest);
  }

  lemma TakeOther(privs: seq<string>, current: string, s: string, inside: bool)
    requires s != "" && (inside || s[0] != ',')
    ensures Extended(privs, current, Pieces(s, inside)) ==
      Extended(privs, current + [s[0]], Pieces(s[1..], if inside then s[0] != ')' else s[0] == '('))
  {
    var rest := Pieces(s[1..], if inside then s[0] != ')' else s[0] == '(');
    assert Pieces(s, inside)[1..] == rest[1..];
    assert current + ([s[0]] + rest[0]) == current + [s[0]] + rest[0];
  }

  lemma LastItem(items: seq<string>, last: string)
    ensures DropEmptyLast(items + [last]) == if last == "" then items else items + [last]
    ensures StripAll(items + [last]) == StripAll(items) + [Strip(last, false)]
  {
    assert (items + [last])[..|items|] == items;
  }

  method ParsePrivPiece(piece: string) returns (privs: seq<string>, privsStripped: seq<string>)
    ensures privs == Items(piece)
    ensures privsStripped == DropEmptyLast(StripAll(Pieces(piece, false)))
  {
    var inParens, current, currentStripped := false, "", "";
    privs, privsStripped := [], [];
    assert piece[0..] == piece;
    ExtendedBare([], "", Pieces(piece, false));
    for i := 0 to |piece|
      invariant inParens == Inside(current, false) && currentStripped == Strip(current, false)
      invariant privsStripped == StripAll(privs)
      invariant Pieces(piece, false) == Extended(privs, current, Pieces(piece[i..], inParens))
    {
      var c := piece[i];
      assert piece[i..][1..] == piece[i + 1..];
      Append(current, false, c);
      if !inParens && c == ',' {
        TakeComma(privs, current, piece[i..]);
      } else {
        TakeOther(privs, current, piece[i..], inParens);
      }
      if inParens {
        inParens := c != ')';
        current := current + [c];
      } else if c == ',' {
        LastItem(privs, current);
        privsStripped, currentStripped := privsStripped + [currentStripped], "";
        privs, current := privs + [current], "";
      } else if c == '(' {
        inParens := true;
        current := current + [c];
      } else {
        currentStripped := currentStripped + [c];
        current := current + [c];
      }
    }
    ExtendedBare(privs, current, [""]);
    LastItem(privs, current);
    LastItem(privsStripped, currentStripped);
    if currentStripped != "" {
      privsStripped := privsStripped + [currentStripped];
    }
    if current != "" {
      privs := privs + [current];
    }
  }

  // ---------- Nothing is lost ----------

  lemma JoinHead(c: char, rest: seq<string>)
    requires rest != []
    ensures Join([[c] + rest[0]] + rest[1..], ",") == [c] + Join(rest, ",")
  {
    assert ([[c] + rest[0]] + rest[1..])[1..] == rest[1..];
    if |rest| > 1 {
      assert [c] + rest[0] + "," + Join(rest[1..], ",") == [c] + (rest[0] + "," + Join(rest[1..], ","));
    }
  }

  lemma {:induction false} JoinPieces(s: string, inside: bool)
    ensures Join(Pieces(s, inside), ",") == s
  {
    if s != "" {
      assert [s[0]] + s[1..] == s;
      var next := if inside then s[0] != ')' else s[0] == '(';
      if !inside && s[0] == ',' {
        JoinPieces(s[1..], false);
        assert ([""] + Pieces(s[1..], false))[1..] == Pieces(s[1..], false);
      } else {
        var rest := Pieces(s[1..], next);
        JoinPieces(s[1..], next);
        JoinHead(s[0], rest);
      }
    }
  }

  lemma {:induction false} JoinSnoc(items: seq<string>, last: string)
    ensures Join(items + [last], ",") == if items == [] then last else Join(items, ",") + "," + last
  {
    if items != [] {
      JoinSnoc(items[1..], last);
      assert (items + [last])[1..] == items[1..] + [last];
    }
  }

  predicate EndsInTopComma(s: string, inside: bool) {
    s != "" && s[|s| - 1] == ',' && !Inside(s[..|s| - 1], inside)
  }

  function LastPiece(s: string, inside: bool): string {
    var p := Pieces(s, inside);
    p[|p| - 1]
  }

  lemma LastPieceStep(s: string, inside: bool)
    requires |s| > 1
    ensures LastPiece(s, inside) == "" <==> LastPiece(s[1..], if inside then s[0] != ')' else s[0] == '(') == ""
  {
  }

  lemma EndsStep(s: string, inside: bool)
    requires |s| > 1
    ensures EndsInTopComma(s, inside) <==> EndsInTopComma(s[1..], if inside then s[0] != ')' else s[0] == '(')
  {
    assert s[1..][..|s| - 2] == s[..|s| - 1][1..];
  }

  lemma {:induction false} LastPieceEmpty(s: string, inside: bool)
    ensures LastPiece(s, inside) == "" <==> s == "" || EndsInTopComma(s, inside)
  {
    if |s| == 1 {
      assert s[1..] == "" && s[..0] == "" && Pieces("", false) == [""];
    } else if |s| > 1 {
      LastPieceEmpty(s[1..], if inside then s[0] != ')' else s[0] == '(');
      LastPieceStep(s, inside);
      EndsStep(s, inside);
    }
  }

  lemma JoinEmptyLast(front: seq<string>)
    ensures Join(front + [""], ",") == Join(front, ",") + if front == [] then "" else ","
  {
    JoinSnoc(front, "");
    var x := Join(front, ",");
    assert x + "," + "" == x + ",";
    assert "" + "" == "";
  }

  lemma JoinDropped(p: seq<string>)
    requires p != [] && p[|p| - 1] == ""
    ensures Join(p, ",") == Join(DropEmptyLast(p), ",") + if |p| > 1 then "," else ""
  {
    var front := p[..|p| - 1];
    assert p == front + [""];
    JoinEmptyLast(front);
  }

  lemma OnePieceOnly(s: string)
    requires |Pieces(s, false)| == 1 && LastPiece(s, false) == ""
    ensures s == ""
  {
    JoinPieces(s, false);
  }

  /** The items, joined, are the text, but for a comma that the text ends in. */
  lemma NothingLost(s: string)
    ensures s == Join(Items(s), ",") + if EndsInTopComma(s, false) then "," else ""
  {
    JoinPieces(s, false);
    LastPieceEmpty(s, false);
    if LastPiece(s, false) == "" {
      JoinDropped(Pieces(s, false));
      if |Pieces(s, false)| == 1 {
        OnePieceOnly(s);
      }
    }
  }

  // ---------- The only way to cut ----------

  /** No comma outside parentheses. */
  predicate NoTopComma(s: string, inside: bool) {
    s == "" || ((inside || s[0] != ',') && NoTopComma(s[1..], if inside then s[0] != ')' else s[0] == '('))
  }

  /** Items that can stand in a list: none holds a comma at top level and only the last may leave a parenthesis open. */
  predicate WellFormed(items: seq<string>, inside: bool) {
    items == [] ||
    (NoTopComma(items[0], inside) && (|items| > 1 ==> !Inside(items[0], inside)) && WellFormed(items[1..], false))
  }

  lemma {:induction false} PiecesWellFormed(s: string, inside: bool)
    ensures WellFormed(Pieces(s, inside), inside)
  {
    if s != "" {
      var next := if inside then s[0] != ')' else s[0] == '(';
      PiecesWellFormed(s[1..], if !inside && s[0] == ',' then false else next);
      var p := Pieces(s, inside);
      if !inside && s[0] == ',' {
        assert p[1..] == Pieces(s[1..], false);
      } else {
        assert p[0][1..] == Pieces(s[1..], next)[0];
        assert p[1..] == Pieces(s[1..], next)[1..];
      }
    }
  }

  lemma {:induction false} OnePiece(item: string, inside: bool)
    requires NoTopComma(item, inside)
    ensures Pieces(item, inside) == [item]
  {
    if item != "" {
      OnePiece(item[1..], if inside then item[0] != ')' else item[0] == '(');
      assert [item[0]] + item[1..] == item;
    }
  }

  lemma {:induction false} FirstPiece(item: string, inside: bool, rest: string)
    requires NoTopComma(item, inside) && !Inside(item, inside)
    ensures Pieces(item + "," + rest, inside) == [item] + Pieces(rest, false)
  {
    var s := item + "," + rest;
    if item == "" {
      assert s[1..] == rest;
    } else {
      FirstPiece(item[1..], if inside then item[0] != ')' else item[0] == '(', rest);
      assert s[1..] == item[1..] + "," + rest;
      assert [item[0]] + item[1..] == item;
    }
  }

  lemma {:induction false} PiecesOfJoin(items: seq<string>)
    requires WellFormed(items, false) && items != []
    ensures Pieces(Join(items, ","), false) == items
  {
    if |items| == 1 {
      OnePiece(items[0], false);
    } else {
      PiecesOfJoin(items[1..]);
      FirstPiece(items[0], false, Join(items[1..], ","));
    }
  }

  /** A list of items is how a text is cut exactly when it is well formed and joins to that text. */
  lemma OnlyWayToCut(s: string, items: seq<string>)
    ensures items == Pieces(s, false) <==> items != [] && WellFormed(items, false) && Join(items, ",") == s
  {
    JoinPieces(s, false);
    PiecesWellFormed(s, false);
    if items != [] && WellFormed(items, false) && Join(items, ",") == s {
      PiecesOfJoin(items);
    }
  }

  /** Well-formed items come back from their join, unless the last is empty: that one is dropped. */
  lemma ItemsRoundTrip(items: seq<string>)
    requires WellFormed(items, false)
    ensures Items(Join(items, ",")) == items <==> items == [] || items[|items| - 1] != ""
  {
    if items != [] {
      PiecesOfJoin(items);
    }
  }

  // ---------- Full and stripped items ----------

  /** The two lists run in step, except that a last item wholly in parentheses has no stripped partner. */
  lemma ListsInStep(pieces: seq<string>)
    ensures var full, stripped := DropEmptyLast(pieces), DropEmptyLast(StripAll(pieces));
      && |full| == |stripped| + (if Partnerless(pieces) then 1 else 0)
      && (forall i :: 0 <= i < |stripped| ==> stripped[i] == Strip(full[i], false))
  {
    if pieces != [] {
      var n := |pieces| - 1;
      assert StripAll(pieces)[n] == Strip(pieces[n], false);
    }
  }

  predicate Partnerless(pieces: seq<string>) {
    pieces != [] && pieces[|pieces| - 1] != "" && Strip(pieces[|pieces| - 1], false) == ""
  }

  lemma {:induction false} StripPlain(s: string)
    requires '(' !in s
    ensures Strip(s, false) == s
  {
    if s != "" {
      StripPlain(s[1..]);
      assert s == [s[0]] + s[1..];
    }
  }

  lemma {:induction false} StripUpTo(b: string, c: string)
    requires ')' !in b
    ensures Strip(b + ")" + c, true) == Strip(c, false) && Strip(b, true) == ""
  {
    var s := b + ")" + c;
    if b == "" {
      assert s[1..] == c;
    } else {
      assert s[1..] == b[1..] + ")" + c;
      StripUpTo(b[1..], c);
    }
  }

  /** What is stripped: a text in parentheses, closed or not, and nothing else. */
  lemma {:induction false} StripExactly(a: string, b: string, c: string)
    requires '(' !in a && ')' !in b
    ensures Strip(a, false) == a
    ensures Strip(a + "(" + b + ")" + c, false) == a + Strip(c, false)
    ensures Strip(a + "(" + b, false) == a
  {
    StripPlain(a);
    var s, t := a + "(" + b + ")" + c, a + "(" + b;
    if a == "" {
      assert s[1..] == b + ")" + c && t[1..] == b;
      StripUpTo(b, c);
    } else {
      assert s[1..] == a[1..] + "(" + b + ")" + c && t[1..] == a[1..] + "(" + b;
      StripExactly(a[1..], b, c);
      assert [a[0]] + a[1..] == a;
    }
  }
}
