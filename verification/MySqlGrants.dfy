// MySQL privileges of one user: the map SHOW GRANTS reads back, the map the spec asks for, and
// the REVOKE and GRANT statements that take one to the other, in whatever order maps are walked.

module MySqlGrants {
  import Funk

  const GLOBAL := "*.*"

  /**
    What the user holds per scope. {"ALL"} stands for everything that can be held there; USAGE, the
    word for nothing, is never stored.
   */
  type Holdings = map<string, set<string>>

  function At(h: Holdings, scope: string): set<string> {
    if scope in h then h[scope] else {}
  }

  ghost predicate Proper(held: set<string>) {
    && "USAGE" !in held && "GRANT" !in held && "ALL PRIVILEGES" !in held
    && ("ALL" in held ==> held == {"ALL"})
  }

  ghost predicate ProperHoldings(h: Holdings) {
    forall scope :: Proper(At(h, scope))
  }

  // ---------- Statements ----------

  function Granted(held: set<string>, privs: set<string>): set<string> {
    if held == {"ALL"} || "ALL" in privs || "ALL PRIVILEGES" in privs then {"ALL"} else held + (privs - {"USAGE"})
  }

  function Revoked(held: set<string>, privs: set<string>): set<string> {
    if "ALL" in privs then {} else held - privs
  }

  /** Percent signs are doubled on the way into a statement that is not a format string. */
  function EscapePercent(scope: string): string {
    if scope == "" then "" else (if scope[0] == '%' then "%%" else [scope[0]]) + EscapePercent(scope[1..])
  }

  lemma {:induction false} EscapeFixes(scope: string)
    ensures EscapePercent(scope) == scope <==> '%' !in scope
    ensures |EscapePercent(scope)| >= |scope|
    ensures '%' in scope ==> |EscapePercent(scope)| > |scope|
  {
    if scope != "" {
      EscapeFixes(scope[1..]);
    }
  }

  /** Percent signs that stand in pairs, the first next to the second. */
  predicate Paired(scope: string) {
    || scope == ""
    || (scope[0] != '%' && Paired(scope[1..]))
    || (scope[0] == '%' && |scope| >= 2 && scope[1] == '%' && Paired(scope[2..]))
  }

  function Unescape(scope: string): string
    requires Paired(scope)
  {
    if scope == "" then "" else if scope[0] != '%' then [scope[0]] + Unescape(scope[1..]) else "%" + Unescape(scope[2..])
  }

  /** Escaping and unescaping are inverse, so exactly the paired scopes are escapes, each of one scope. */
  lemma {:induction false} EscapeInverse(scope: string)
    ensures Paired(EscapePercent(scope)) && Unescape(EscapePercent(scope)) == scope
  {
    if scope != "" {
      EscapeInverse(scope[1..]);
      var e := EscapePercent(scope);
      if scope[0] == '%' {
        assert e[2..] == EscapePercent(scope[1..]);
      } else {
        assert e[1..] == EscapePercent(scope[1..]);
      }
      assert scope == [scope[0]] + scope[1..];
    }
  }

  lemma {:induction false} UnescapeInverse(scope: string)
    requires Paired(scope)
    ensures EscapePercent(Unescape(scope)) == scope
    ensures ('%' in Unescape(scope) <==> '%' in scope) && ('%' in scope ==> |Unescape(scope)| < |scope|) && |Unescape(scope)| <= |scope|
  {
    if scope != "" {
      var u := Unescape(scope);
      if scope[0] == '%' {
        UnescapeInverse(scope[2..]);
        assert u[1..] == Unescape(scope[2..]);
        assert scope == "%%" + scope[2..];
      } else {
        UnescapeInverse(scope[1..]);
        assert u[1..] == Unescape(scope[1..]);
        assert scope == [scope[0]] + scope[1..];
      }
    }
  }

  lemma EscapeInjective(a: string, b: string)
    requires EscapePercent(a) == EscapePercent(b)
    ensures a == b
  {
    EscapeInverse(a);
    EscapeInverse(b);
  }

  /** What the user holds where statements about a scope land. */
  function Landing(h: Holdings, scope: string): set<string> {
    At(h, EscapePercent(scope))
  }

  /** Both statement builders refuse a scope that is neither *.* nor quoted. */
  predicate Addressable(scope: string) {
    scope == GLOBAL || (scope != "" && (scope[0] == '"' || scope[0] == '`'))
  }

  datatype Fates = Fates(revoke: string -> bool, grant: string -> bool)

  predicate RevokeFails(f: Fates, scope: string) {
    !Addressable(scope) || !f.revoke(scope)
  }

  predicate GrantFails(f: Fates, scope: string) {
    !Addressable(scope) || !f.grant(scope)
  }

  // ---------- Reading back ----------

  predicate Lists(list: seq<string>, all: seq<string>) {
    forall p :: p in all ==> p in list
  }

  /** How one scope reads back: `all` is the list the code knows ALL by. */
  ghost predicate ReadsAs(held: set<string>, list: seq<string>, all: seq<string>) {
    if held == {} then list == ["USAGE"]
    else if held == {"ALL"} then list == ["ALL"] || (|list| > 50 && Lists(list, all) && "GRANT" !in list)
    else Funk.Elems(list) == held && !(|list| > 50 && Lists(list, all))
  }

  ghost predicate Reads(h: Holdings, read: map<string, seq<string>>, all: seq<string>) {
    && (forall scope :: scope in read <==> scope == GLOBAL || At(h, scope) != {})
    && (forall scope :: scope in read ==> ReadsAs(At(h, scope), read[scope], all))
  }

  // ---------- What happens to one scope ----------

  /** The current privileges as the code compares them. */
  ghost function Seen(held: set<string>, scope: string): set<string> {
    if held == {} && scope == GLOBAL then {"USAGE"} else held
  }

  ghost function ToRevoke(held: set<string>, scope: string, wanted: set<string>): set<string> {
    Seen(held, scope) - wanted
  }

  ghost function ToGrant(held: set<string>, scope: string, wanted: set<string>): set<string> {
    wanted - Seen(held, scope)
  }

  ghost function AfterRevoke(held: set<string>, scope: string, wanted: set<string>, fails: bool): set<string> {
    var r := ToRevoke(held, scope, wanted);
    if r == {} || fails then held else Revoked(held, r)
  }

  ghost function AfterGrant(held: set<string>, scope: string, wanted: set<string>, fails: bool): set<string> {
    var g := ToGrant(held, scope, wanted);
    if g == {} then AfterRevoke(held, scope, wanted, fails) else Granted(AfterRevoke(held, scope, wanted, fails), g)
  }

  ghost function Wanted(desired: map<string, seq<string>>, scope: string): set<string> {
    if scope in desired then Funk.Elems(desired[scope]) else {}
  }

  /** What a list of privileges means: ALL is everything, USAGE is nothing. */
  ghost function Meaning(wanted: set<string>): set<string> {
    if "ALL" in wanted || "ALL PRIVILEGES" in wanted then {"ALL"} else wanted - {"USAGE"}
  }

  /** The scope ends up with exactly what is asked for, unless a failed REVOKE left something that should have gone. */
  lemma ScopeEndsAsAsked(held: set<string>, scope: string, wanted: set<string>, fails: bool)
    requires Proper(held) && "GRANT" !in wanted
    ensures AfterGrant(held, scope, wanted, fails) == Meaning(wanted) <==>
      !fails || Meaning(wanted) == {"ALL"} || held <= wanted
  {
    if held == {"ALL"} {
      assert ToRevoke(held, scope, wanted) == {} <==> "ALL" in wanted;
    } else if held == {} {
      assert AfterRevoke(held, scope, wanted, fails) == {};
    } else {
      OrdinaryScope(held, scope, wanted, fails);
    }
  }

  lemma OrdinaryScope(held: set<string>, scope: string, wanted: set<string>, fails: bool)
    requires Proper(held) && held != {} && "ALL" !in held
    ensures AfterGrant(held, scope, wanted, fails) ==
      if Meaning(wanted) == {"ALL"} then {"ALL"} else Meaning(wanted) + if fails then held else {}
  {
    var mid := AfterRevoke(held, scope, wanted, fails);
    assert ToRevoke(held, scope, wanted) == {} ==> held <= wanted by {
      forall p | p in held && ToRevoke(held, scope, wanted) == {} ensures p in wanted {
        assert p in wanted || p in ToRevoke(held, scope, wanted);
      }
    }
    assert mid == if fails then held else held * wanted;
    assert ToGrant(held, scope, wanted) == wanted - held;
    if wanted - held == {} {
      assert wanted <= held by {
        forall p | p in wanted ensures p in held {
          assert p in held || p in wanted - held;
        }
      }
      assert held * wanted == wanted;
      assert held != {"ALL"};
    } else {
      assert "ALL" in wanted ==> "ALL" in wanted - held;
      assert mid != {"ALL"} by { assert "ALL" !in mid; }
    }
  }

  // ---------- The two loops ----------

  datatype Verdict = Done | GrantError | Panic

  /** Where a run has got to: the server, the lists in hand, whether anything was said to change. */
  datatype Progress = Progress(held: Holdings, lists: map<string, seq<string>>, changes: bool, verdict: Verdict)

  function Lookup(m: map<string, seq<string>>, scope: string): (list: seq<string>)
    ensures Funk.Elems(list) == Wanted(m, scope)
  {
    if scope in m then m[scope] else []
  }

  /** More than fifty privileges, and not every one that ALL is known to stand for. */
  predicate Doubtful(list: seq<string>, all: seq<string>) {
    |list| > 50 && !Lists(list, all)
  }

  function Collapsed(list: seq<string>): seq<string> {
    if |list| > 50 then ["ALL"] else list
  }

  function SendRevoke(h: Holdings, scope: string, privs: seq<string>, f: Fates): Holdings {
    var s := EscapePercent(scope);
    if RevokeFails(f, scope) then h else h[s := Revoked(At(h, s), set p | p in privs)]
  }

  function SendGrant(h: Holdings, scope: string, privs: seq<string>): Holdings {
    var s := EscapePercent(scope);
    h[s := Granted(At(h, s), set p | p in privs)]
  }

  /** One scope of the first loop: a long list becomes ALL, and what is not asked for is revoked, the error dropped. */
  function RevokeTurn(p: Progress, scope: string, desired: map<string, seq<string>>, all: seq<string>, f: Fates): Progress {
    var list := Lookup(p.lists, scope);
    if Doubtful(list, all) then p.(verdict := Panic)
    else
      var q := if |list| > 50 then p.(lists := p.lists[scope := ["ALL"]]) else p;
      var toRevoke := Funk.Without(Collapsed(list), Lookup(desired, scope));
      if toRevoke == [] then q else q.(held := SendRevoke(p.held, scope, toRevoke, f), changes := true)
  }

  /** One scope of the second loop: what is asked for and was not there is granted. */
  function GrantTurn(p: Progress, scope: string, desired: map<string, seq<string>>, f: Fates): Progress {
    var toGrant := Funk.Without(Lookup(desired, scope), Lookup(p.lists, scope));
    if toGrant == [] then p
    else if GrantFails(f, scope) then p.(verdict := GrantError)
    else p.(held := SendGrant(p.held, scope, toGrant), changes := true)
  }

  function RevokeLoop(p: Progress, order: seq<string>, desired: map<string, seq<string>>, all: seq<string>, f: Fates): Progress {
    if order == [] then p
    else
      var q := RevokeLoop(p, order[..|order| - 1], desired, all, f);
      if q.verdict != Done then q else RevokeTurn(q, order[|order| - 1], desired, all, f)
  }

  function GrantLoop(p: Progress, order: seq<string>, desired: map<string, seq<string>>, f: Fates): Progress {
    if order == [] then p
    else
      var q := GrantLoop(p, order[..|order| - 1], desired, f);
      if q.verdict != Done then q else GrantTurn(q, order[|order| - 1], desired, f)
  }

  /** The order in which a map happens to be walked. */
  ghost predicate Walks(order: seq<string>, m: map<string, seq<string>>) {
    Funk.Distinct(order) && Funk.Elems(order) == m.Keys
  }

  class MySqlUser {
    var held: Holdings

    constructor (held: Holdings)
      ensures this.held == held
    {
      this.held := held;
    }

    /** The first loop: collapse long lists, revoke what is not asked for, drop the errors. */
    method RevokeExcess(read: map<string, seq<string>>, desired: map<string, seq<string>>, all: seq<string>, f: Fates, order: seq<string>)
      returns (lists: map<string, seq<string>>, changes: bool, verdict: Verdict)
      modifies this
      ensures Progress(held, lists, changes, verdict) == RevokeLoop(Progress(old(held), read, false, Done), order, desired, all, f)
    {
      ghost var start := Progress(held, read, false, Done);
      lists, changes, verdict := read, false, Done;
      for i := 0 to |order|
        invariant Progress(held, lists, changes, verdict) == RevokeLoop(start, order[..i], desired, all, f) && verdict == Done
      {
        var scope := order[i];
        assert order[..i + 1][..i] == order[..i];
        var list := Lookup(lists, scope);
        if |list| > 50 {
          if !Lists(list, all) {
            RevokeLoopStops(start, order, i + 1, desired, all, f);
            return lists, changes, Panic;
          }
          list, lists := ["ALL"], lists[scope := ["ALL"]];
        }
        var toRevoke := Funk.Subtract(list, Lookup(desired, scope));
        if |toRevoke| > 0 {
          held := SendRevoke(held, scope, toRevoke, f);
          changes := true;
        }
      }
      assert order[..|order|] == order;
    }

    /** The second loop: grant what is asked for and was not there. */
    method GrantMissing(lists: map<string, seq<string>>, changed: bool, desired: map<string, seq<string>>, f: Fates, order: seq<string>)
      returns (changes: bool, verdict: Verdict)
      modifies this
      ensures Progress(held, lists, changes, verdict) == GrantLoop(Progress(old(held), lists, changed, Done), order, desired, f)
    {
      ghost var start := Progress(held, lists, changed, Done);
      changes, verdict := changed, Done;
      for i := 0 to |order|
        invariant Progress(held, lists, changes, verdict) == GrantLoop(start, order[..i], desired, f) && verdict == Done
      {
        var scope := order[i];
        assert order[..i + 1][..i] == order[..i];
        var toGrant := Funk.Subtract(Lookup(desired, scope), Lookup(lists, scope));
        if |toGrant| > 0 {
          if GrantFails(f, scope) {
            GrantLoopStops(start, order, i + 1, desired, f);
            return changes, GrantError;
          }
          held := SendGrant(held, scope, toGrant);
          changes := true;
        }
      }
      assert order[..|order|] == order;
    }

    /** Both loops, for any walk of the two maps. */
    method UpdateUserPrivs(read: map<string, seq<string>>, desired: map<string, seq<string>>, all: seq<string>, f: Fates,
                           revokes: seq<string>, grants: seq<string>)
      returns (changes: bool, verdict: Verdict)
      modifies this
      ensures held == Update(old(held), read, desired, all, f, revokes, grants).held
      ensures changes == Update(old(held), read, desired, all, f, revokes, grants).changes
      ensures verdict == Update(old(held), read, desired, all, f, revokes, grants).verdict
    {
      var lists;
      lists, changes, verdict := RevokeExcess(read, desired, all, f, revokes);
      if verdict == Done {
        changes, verdict := GrantMissing(lists, changes, desired, f, grants);
      }
    }
  }

  function Update(h: Holdings, read: map<string, seq<string>>, desired: map<string, seq<string>>, all: seq<string>, f: Fates,
                  revokes: seq<string>, grants: seq<string>): Progress {
    var p := RevokeLoop(Progress(h, read, false, Done), revokes, desired, all, f);
    if p.verdict != Done then p else GrantLoop(p, grants, desired, f)
  }

  lemma {:induction false} RevokeLoopStops(p: Progress, order: seq<string>, i: nat, desired: map<string, seq<string>>, all: seq<string>, f: Fates)
    requires i <= |order| && RevokeLoop(p, order[..i], desired, all, f).verdict != Done
    ensures RevokeLoop(p, order, desired, all, f) == RevokeLoop(p, order[..i], desired, all, f)
    decreases |order|
  {
    if i < |order| {
      assert order[..|order| - 1][..i] == order[..i];
      RevokeLoopStops(p, order[..|order| - 1], i, desired, all, f);
    } else {
      assert order[..i] == order;
    }
  }

  lemma {:induction false} GrantLoopStops(p: Progress, order: seq<string>, i: nat, desired: map<string, seq<string>>, f: Fates)
    requires i <= |order| && GrantLoop(p, order[..i], desired, f).verdict != Done
    ensures GrantLoop(p, order, desired, f) == GrantLoop(p, order[..i], desired, f)
    decreases |order|
  {
    if i < |order| {
      assert order[..|order| - 1][..i] == order[..i];
      GrantLoopStops(p, order[..|order| - 1], i, desired, f);
    } else {
      assert order[..i] == order;
    }
  }

  // ---------- The loops, one scope at a time ----------

  lemma SplitLast(order: seq<string>, scope: string)
    requires order != []
    ensures scope in order <==> scope in order[..|order| - 1] || scope == order[|order| - 1]
    ensures Funk.Distinct(order) ==> order[|order| - 1] !in order[..|order| - 1]
  {
    assert order == order[..|order| - 1] + [order[|order| - 1]];
  }

  ghost function Excess(lists: map<string, seq<string>>, desired: map<string, seq<string>>, scope: string): set<string> {
    Funk.Elems(Collapsed(Lookup(lists, scope))) - Wanted(desired, scope)
  }

  ghost function Missing(lists: map<string, seq<string>>, desired: map<string, seq<string>>, scope: string): set<string> {
    Wanted(desired, scope) - Wanted(lists, scope)
  }

  ghost function LessExcess(held: set<string>, excess: set<string>, fails: bool): set<string> {
    if excess == {} || fails then held else Revoked(held, excess)
  }

  ghost function PlusMissing(held: set<string>, missing: set<string>): set<string> {
    if missing == {} then held else Granted(held, missing)
  }

  lemma WithoutIsMinus(x: seq<string>, y: seq<string>)
    ensures Funk.Elems(Funk.Without(x, y)) == Funk.Elems(x) - Funk.Elems(y)
    ensures Funk.Without(x, y) == [] <==> Funk.Elems(x) - Funk.Elems(y) == {}
  {
    var r := Funk.Without(x, y);
    assert r != [] ==> r[0] in Funk.Elems(r);
  }

  lemma SendRevokeAt(h: Holdings, turn: string, privs: seq<string>, f: Fates, scope: string)
    ensures Landing(SendRevoke(h, turn, privs, f), turn) == if RevokeFails(f, turn) then Landing(h, turn) else Revoked(Landing(h, turn), Funk.Elems(privs))
    ensures scope != turn ==> Landing(SendRevoke(h, turn, privs, f), scope) == Landing(h, scope)
  {
    if EscapePercent(scope) == EscapePercent(turn) {
      EscapeInjective(scope, turn);
    }
  }

  lemma SendGrantAt(h: Holdings, turn: string, privs: seq<string>, scope: string)
    ensures Landing(SendGrant(h, turn, privs), turn) == Granted(Landing(h, turn), Funk.Elems(privs))
    ensures scope != turn ==> Landing(SendGrant(h, turn, privs), scope) == Landing(h, scope)
  {
    if EscapePercent(scope) == EscapePercent(turn) {
      EscapeInjective(scope, turn);
    }
  }

  lemma RevokeTurnAt(p: Progress, turn: string, desired: map<string, seq<string>>, all: seq<string>, f: Fates, scope: string)
    ensures var q := RevokeTurn(p, turn, desired, all, f);
      && (q.verdict == if Doubtful(Lookup(p.lists, turn), all) then Panic else p.verdict)
      && (scope != turn ==> Lookup(q.lists, scope) == Lookup(p.lists, scope) && Landing(q.held, scope) == Landing(p.held, scope))
      && (!Doubtful(Lookup(p.lists, turn), all) ==>
           && Lookup(q.lists, turn) == Collapsed(Lookup(p.lists, turn))
           && Landing(q.held, turn) == LessExcess(Landing(p.held, turn), Excess(p.lists, desired, turn), RevokeFails(f, turn))
           && (q.changes <==> p.changes || Excess(p.lists, desired, turn) != {}))
  {
    var list, wanted := Collapsed(Lookup(p.lists, turn)), Lookup(desired, turn);
    WithoutIsMinus(list, wanted);
    SendRevokeAt(p.held, turn, Funk.Without(list, wanted), f, scope);
  }

  lemma GrantTurnAt(p: Progress, turn: string, desired: map<string, seq<string>>, f: Fates, scope: string)
    ensures var q := GrantTurn(p, turn, desired, f);
      && q.lists == p.lists
      && (q.verdict == if Missing(p.lists, desired, turn) != {} && GrantFails(f, turn) then GrantError else p.verdict)
      && (scope != turn ==> Landing(q.held, scope) == Landing(p.held, scope))
      && (q.verdict == GrantError != p.verdict ==> q.held == p.held)
      && (q.verdict == Done ==> Landing(q.held, turn) == PlusMissing(Landing(p.held, turn), Missing(p.lists, desired, turn)))
      && (q.verdict == Done ==> (q.changes <==> p.changes || Missing(p.lists, desired, turn) != {}))
  {
    WithoutIsMinus(Lookup(desired, turn), Lookup(p.lists, turn));
    SendGrantAt(p.held, turn, Funk.Without(Lookup(desired, turn), Lookup(p.lists, turn)), scope);
  }

  lemma {:induction false} RevokeLoopAt(p: Progress, order: seq<string>, desired: map<string, seq<string>>, all: seq<string>, f: Fates, scope: string)
    requires Funk.Distinct(order) && RevokeLoop(p, order, desired, all, f).verdict == Done
    ensures var q := RevokeLoop(p, order, desired, all, f);
      if scope in order then
        && Lookup(q.lists, scope) == Collapsed(Lookup(p.lists, scope))
        && Landing(q.held, scope) == LessExcess(Landing(p.held, scope), Excess(p.lists, desired, scope), RevokeFails(f, scope))
      else
        Lookup(q.lists, scope) == Lookup(p.lists, scope) && Landing(q.held, scope) == Landing(p.held, scope)
  {
    if order != [] {
      var rest, turn := order[..|order| - 1], order[|order| - 1];
      SplitLast(order, scope);
      RevokeLoopAt(p, rest, desired, all, f, scope);
      RevokeTurnAt(RevokeLoop(p, rest, desired, all, f), turn, desired, all, f, scope);
    }
  }

  ghost predicate AnyDoubtful(lists: map<string, seq<string>>, all: seq<string>, order: seq<string>) {
    exists scope :: scope in order && Doubtful(Lookup(lists, scope), all)
  }

  ghost predicate AnyExcess(lists: map<string, seq<string>>, desired: map<string, seq<string>>, order: seq<string>) {
    exists scope :: scope in order && Excess(lists, desired, scope) != {}
  }

  ghost predicate AnyMissing(lists: map<string, seq<string>>, desired: map<string, seq<string>>, order: seq<string>) {
    exists scope :: scope in order && Missing(lists, desired, scope) != {}
  }

  ghost predicate AnyGrantFails(lists: map<string, seq<string>>, desired: map<string, seq<string>>, f: Fates, order: seq<string>) {
    exists scope :: scope in order && Missing(lists, desired, scope) != {} && GrantFails(f, scope)
  }

  lemma {:induction false} RevokeLoopEnds(p: Progress, order: seq<string>, desired: map<string, seq<string>>, all: seq<string>, f: Fates)
    requires Funk.Distinct(order) && p.verdict == Done
    ensures RevokeLoop(p, order, desired, all, f).verdict == if AnyDoubtful(p.lists, all, order) then Panic else Done
    ensures !AnyDoubtful(p.lists, all, order) ==>
      (RevokeLoop(p, order, desired, all, f).changes <==> p.changes || AnyExcess(p.lists, desired, order))
  {
    if order != [] {
      var rest, turn := order[..|order| - 1], order[|order| - 1];
      RevokeLoopEnds(p, rest, desired, all, f);
      forall scope ensures scope in order <==> scope in rest || scope == turn {
        SplitLast(order, scope);
      }
      SplitLast(order, turn);
      assert AnyDoubtful(p.lists, all, order) <==> AnyDoubtful(p.lists, all, rest) || Doubtful(Lookup(p.lists, turn), all);
      assert AnyExcess(p.lists, desired, order) <==> AnyExcess(p.lists, desired, rest) || Excess(p.lists, desired, turn) != {};
      if !AnyDoubtful(p.lists, all, rest) {
        RevokeLoopAt(p, rest, desired, all, f, turn);
        RevokeTurnAt(RevokeLoop(p, rest, desired, all, f), turn, desired, all, f, turn);
      }
    }
  }

  lemma {:induction false} GrantLoopAt(p: Progress, order: seq<string>, desired: map<string, seq<string>>, f: Fates, scope: string)
    requires Funk.Distinct(order) && p.verdict == Done
    ensures var q := GrantLoop(p, order, desired, f);
      && q.lists == p.lists
      && (scope !in order ==> Landing(q.held, scope) == Landing(p.held, scope))
      && (q.verdict == Done && scope in order ==> Landing(q.held, scope) == PlusMissing(Landing(p.held, scope), Missing(p.lists, desired, scope)))
      && (|| Landing(q.held, scope) == Landing(p.held, scope)
          || Landing(q.held, scope) == PlusMissing(Landing(p.held, scope), Missing(p.lists, desired, scope)))
  {
    if order != [] {
      var rest, turn := order[..|order| - 1], order[|order| - 1];
      SplitLast(order, scope);
      GrantLoopAt(p, rest, desired, f, scope);
      GrantTurnAt(GrantLoop(p, rest, desired, f), turn, desired, f, scope);
    }
  }

  lemma {:induction false} GrantLoopEnds(p: Progress, order: seq<string>, desired: map<string, seq<string>>, f: Fates)
    requires Funk.Distinct(order) && p.verdict == Done
    ensures GrantLoop(p, order, desired, f).verdict == if AnyGrantFails(p.lists, desired, f, order) then GrantError else Done
    ensures !AnyGrantFails(p.lists, desired, f, order) ==>
      (GrantLoop(p, order, desired, f).changes <==> p.changes || AnyMissing(p.lists, desired, order))
  {
    if order != [] {
      var rest, turn := order[..|order| - 1], order[|order| - 1];
      GrantLoopEnds(p, rest, desired, f);
      forall scope ensures scope in order <==> scope in rest || scope == turn {
        SplitLast(order, scope);
      }
      assert AnyGrantFails(p.lists, desired, f, order) <==>
        AnyGrantFails(p.lists, desired, f, rest) || (Missing(p.lists, desired, turn) != {} && GrantFails(f, turn));
      assert AnyMissing(p.lists, desired, order) <==> AnyMissing(p.lists, desired, rest) || Missing(p.lists, desired, turn) != {};
      GrantLoopAt(p, rest, desired, f, turn);
      GrantTurnAt(GrantLoop(p, rest, desired, f), turn, desired, f, turn);
    }
  }

  // ---------- The whole update ----------

  /** The walks of both maps are complete. */
  ghost predicate Walked(read: map<string, seq<string>>, desired: map<string, seq<string>>, revokes: seq<string>, grants: seq<string>) {
    Walks(revokes, read) && Walks(grants, desired)
  }

  /** What the lists in hand say about a scope, read back or not, is what the server holds there. */
  lemma ListsSeen(h: Holdings, read: map<string, seq<string>>, all: seq<string>, scope: string)
    requires Reads(h, read, all) && !Doubtful(Lookup(read, scope), all)
    ensures Funk.Elems(Collapsed(Lookup(read, scope))) == Seen(At(h, scope), scope)
    ensures scope !in read ==> Seen(At(h, scope), scope) == {}
  {
    if scope in read {
      assert ReadsAs(At(h, scope), read[scope], all);
    }
  }

  lemma NotWalked(read: map<string, seq<string>>, desired: map<string, seq<string>>, revokes: seq<string>, scope: string)
    requires Walks(revokes, read) && scope !in revokes
    ensures Lookup(read, scope) == [] && Collapsed(Lookup(read, scope)) == [] && Excess(read, desired, scope) == {}
  {
    WalkCovers(read, revokes);
  }

  /** The first loop treats a scope that was not read back as one that reads back empty. */
  lemma AfterRevokes(h: Holdings, read: map<string, seq<string>>, desired: map<string, seq<string>>, all: seq<string>, f: Fates,
                     revokes: seq<string>, scope: string)
    requires Walks(revokes, read)
    requires RevokeLoop(Progress(h, read, false, Done), revokes, desired, all, f).verdict == Done
    ensures var p := RevokeLoop(Progress(h, read, false, Done), revokes, desired, all, f);
      && Lookup(p.lists, scope) == Collapsed(Lookup(read, scope))
      && Landing(p.held, scope) == LessExcess(Landing(h, scope), Excess(read, desired, scope), RevokeFails(f, scope))
  {
    RevokeLoopAt(Progress(h, read, false, Done), revokes, desired, all, f, scope);
    if scope !in revokes {
      NotWalked(read, desired, revokes, scope);
    }
  }

  lemma DiffOf(held: set<string>, scope: string, read: map<string, seq<string>>, lists: map<string, seq<string>>, desired: map<string, seq<string>>)
    requires Funk.Elems(Collapsed(Lookup(read, scope))) == Seen(held, scope)
    requires Lookup(lists, scope) == Collapsed(Lookup(read, scope))
    ensures Missing(lists, desired, scope) == ToGrant(held, scope, Wanted(desired, scope))
    ensures Excess(read, desired, scope) == ToRevoke(held, scope, Wanted(desired, scope))
  {
    assert Wanted(lists, scope) == Funk.Elems(Lookup(lists, scope));
  }

  /** Between the loops. */
  lemma BetweenLoops(h: Holdings, read: map<string, seq<string>>, desired: map<string, seq<string>>, all: seq<string>, f: Fates,
                     revokes: seq<string>, scope: string)
    requires Reads(h, read, all) && Walks(revokes, read) && !AnyDoubtful(read, all, revokes)
    ensures var p := RevokeLoop(Progress(h, read, false, Done), revokes, desired, all, f);
      && p.verdict == Done
      && Landing(p.held, scope) == Lessened(h, desired, f, scope)
      && Missing(p.lists, desired, scope) == ToGrant(At(h, scope), scope, Wanted(desired, scope))
    ensures Excess(read, desired, scope) == ToRevoke(At(h, scope), scope, Wanted(desired, scope))
  {
    var p := RevokeLoop(Progress(h, read, false, Done), revokes, desired, all, f);
    RevokeLoopEnds(Progress(h, read, false, Done), revokes, desired, all, f);
    AfterRevokes(h, read, desired, all, f, revokes, scope);
    assert !Doubtful(Lookup(read, scope), all) by {
      if scope !in revokes {
        NotWalked(read, desired, revokes, scope);
      }
    }
    ListsSeen(h, read, all, scope);
    DiffOf(At(h, scope), scope, read, p.lists, desired);
  }

  /** Some scope has something to revoke or to grant. */
  ghost predicate Differs(h: Holdings, desired: map<string, seq<string>>) {
    exists scope :: DiffersAt(h, desired, scope)
  }

  ghost predicate DiffersAt(h: Holdings, desired: map<string, seq<string>>, scope: string) {
    ToRevoke(At(h, scope), scope, Wanted(desired, scope)) != {} || ToGrant(At(h, scope), scope, Wanted(desired, scope)) != {}
  }

  /** A scope that must be given something refuses it. */
  ghost predicate GrantRefused(h: Holdings, desired: map<string, seq<string>>, f: Fates, scope: string) {
    ToGrant(At(h, scope), scope, Wanted(desired, scope)) != {} && GrantFails(f, scope)
  }

  /** Scope by scope, what the two loops look for is the difference. */
  lemma DifferenceIsFound(h: Holdings, read: map<string, seq<string>>, lists: map<string, seq<string>>, desired: map<string, seq<string>>, f: Fates,
                          revokes: seq<string>, grants: seq<string>)
    requires Walked(read, desired, revokes, grants)
    requires forall scope :: Missing(lists, desired, scope) == ToGrant(At(h, scope), scope, Wanted(desired, scope))
    requires forall scope :: Excess(read, desired, scope) == ToRevoke(At(h, scope), scope, Wanted(desired, scope))
    ensures Differs(h, desired) <==> AnyExcess(read, desired, revokes) || AnyMissing(lists, desired, grants)
    ensures AnyGrantFails(lists, desired, f, grants) <==> exists scope :: GrantRefused(h, desired, f, scope)
  {
    forall scope ensures scope !in grants ==> Missing(lists, desired, scope) == {}
      ensures scope !in revokes ==> Excess(read, desired, scope) == {}
    {
      WalkCovers(desired, grants);
      if scope !in revokes {
        NotWalked(read, desired, revokes, scope);
      }
    }
    forall scope ensures DiffersAt(h, desired, scope) <==>
      (scope in revokes && Excess(read, desired, scope) != {}) || (scope in grants && Missing(lists, desired, scope) != {})
      ensures GrantRefused(h, desired, f, scope) <==> scope in grants && Missing(lists, desired, scope) != {} && GrantFails(f, scope)
    {
    }
  }

  lemma ChangesAre(p: Progress, revokes: seq<string>, grants: seq<string>, desired: map<string, seq<string>>, all: seq<string>, f: Fates)
    requires Funk.Distinct(revokes) && Funk.Distinct(grants)
    requires p.verdict == Done && !p.changes
    ensures var mid := RevokeLoop(p, revokes, desired, all, f);
      var q := if mid.verdict != Done then mid else GrantLoop(mid, grants, desired, f);
      && mid.verdict == (if AnyDoubtful(p.lists, all, revokes) then Panic else Done)
      && q.verdict == (if AnyDoubtful(p.lists, all, revokes) then Panic else if AnyGrantFails(mid.lists, desired, f, grants) then GrantError else Done)
      && (q.verdict == Done ==> (q.changes <==> AnyExcess(p.lists, desired, revokes) || AnyMissing(mid.lists, desired, grants)))
  {
    RevokeLoopEnds(p, revokes, desired, all, f);
    var mid := RevokeLoop(p, revokes, desired, all, f);
    if mid.verdict == Done {
      GrantLoopEnds(mid, grants, desired, f);
    }
  }

  /** How an update ends, whatever order the maps are walked in, and what `changes` then means. */
  lemma UpdateVerdict(h: Holdings, read: map<string, seq<string>>, desired: map<string, seq<string>>, all: seq<string>, f: Fates,
                      revokes: seq<string>, grants: seq<string>)
    requires Reads(h, read, all) && Walked(read, desired, revokes, grants)
    ensures var p := Update(h, read, desired, all, f, revokes, grants);
      && (p.verdict == Panic <==> AnyDoubtful(read, all, revokes))
      && (p.verdict == GrantError <==> p.verdict != Panic && exists scope :: GrantRefused(h, desired, f, scope))
      && (p.verdict == Done ==> p.changes == Differs(h, desired))
  {
    var start := Progress(h, read, false, Done);
    var mid := RevokeLoop(start, revokes, desired, all, f);
    ChangesAre(start, revokes, grants, desired, all, f);
    if mid.verdict == Done {
      forall scope ensures Missing(mid.lists, desired, scope) == ToGrant(At(h, scope), scope, Wanted(desired, scope))
        ensures Excess(read, desired, scope) == ToRevoke(At(h, scope), scope, Wanted(desired, scope))
      {
        BetweenLoops(h, read, desired, all, f, revokes, scope);
      }
      DifferenceIsFound(h, read, mid.lists, desired, f, revokes, grants);
    }
  }

  lemma WalkCovers(m: map<string, seq<string>>, order: seq<string>)
    requires Walks(order, m)
    ensures forall scope :: scope in order <==> scope in m
  {
    forall scope ensures scope in order <==> scope in m {
      assert scope in Funk.Elems(order) <==> scope in m.Keys;
    }
  }

  /** Without a panic the diff of a scope, listed or not, is carried out where statements about it land, or all but its grants if one failed. */
  lemma UpdateAt(h: Holdings, read: map<string, seq<string>>, desired: map<string, seq<string>>, all: seq<string>, f: Fates,
                 revokes: seq<string>, grants: seq<string>, scope: string)
    requires Reads(h, read, all) && Walked(read, desired, revokes, grants)
    requires Update(h, read, desired, all, f, revokes, grants).verdict != Panic
    ensures var p := Update(h, read, desired, all, f, revokes, grants);
      || Landing(p.held, scope) == Moved(h, desired, f, scope)
      || (p.verdict == GrantError && Landing(p.held, scope) == Lessened(h, desired, f, scope))
  {
    var start := Progress(h, read, false, Done);
    var mid := RevokeLoop(start, revokes, desired, all, f);
    RevokeLoopEnds(start, revokes, desired, all, f);
    BetweenLoops(h, read, desired, all, f, revokes, scope);
    GrantLoopAt(mid, grants, desired, f, scope);
    GrantLoopEnds(mid, grants, desired, f);
    WalkCovers(desired, grants);
    if scope !in grants {
      assert Missing(mid.lists, desired, scope) == {};
    }
  }

  lemma {:induction false} RevokesTouchEscapes(p: Progress, order: seq<string>, desired: map<string, seq<string>>, all: seq<string>, f: Fates, scope: string)
    requires forall s :: s in order ==> EscapePercent(s) != scope
    ensures At(RevokeLoop(p, order, desired, all, f).held, scope) == At(p.held, scope)
  {
    if order != [] {
      RevokesTouchEscapes(p, order[..|order| - 1], desired, all, f, scope);
      assert order[|order| - 1] in order;
    }
  }

  lemma {:induction false} GrantsTouchEscapes(p: Progress, order: seq<string>, desired: map<string, seq<string>>, f: Fates, scope: string)
    requires forall s :: s in order ==> EscapePercent(s) != scope
    ensures At(GrantLoop(p, order, desired, f).held, scope) == At(p.held, scope)
  {
    if order != [] {
      GrantsTouchEscapes(p, order[..|order| - 1], desired, f, scope);
      assert order[|order| - 1] in order;
    }
  }

  /** A scope whose percent signs are not all in pairs is the escape of none: no update ever touches it, however it ends. */
  lemma UnpairedNeverUpdated(h: Holdings, read: map<string, seq<string>>, desired: map<string, seq<string>>, all: seq<string>, f: Fates,
                             revokes: seq<string>, grants: seq<string>, scope: string)
    requires !Paired(scope)
    ensures At(Update(h, read, desired, all, f, revokes, grants).held, scope) == At(h, scope)
  {
    forall s ensures EscapePercent(s) != scope {
      EscapeInverse(s);
    }
    var mid := RevokeLoop(Progress(h, read, false, Done), revokes, desired, all, f);
    RevokesTouchEscapes(Progress(h, read, false, Done), revokes, desired, all, f, scope);
    GrantsTouchEscapes(mid, grants, desired, f, scope);
  }

  // ---------- What an update achieves ----------

  ghost predicate NoGrantOption(desired: map<string, seq<string>>) {
    forall scope :: "GRANT" !in Wanted(desired, scope)
  }

  ghost predicate MeetsSpec(h: Holdings, desired: map<string, seq<string>>) {
    forall scope :: AsAsked(h, desired, scope)
  }

  ghost predicate AsAsked(h: Holdings, desired: map<string, seq<string>>, scope: string) {
    At(h, scope) == Meaning(Wanted(desired, scope))
  }

  /** Where the revoked part of a scope's diff takes what is held where it lands. */
  ghost function Lessened(h: Holdings, desired: map<string, seq<string>>, f: Fates, scope: string): set<string> {
    LessExcess(Landing(h, scope), ToRevoke(At(h, scope), scope, Wanted(desired, scope)), RevokeFails(f, scope))
  }

  /** Where the whole diff takes it. */
  ghost function Moved(h: Holdings, desired: map<string, seq<string>>, f: Fates, scope: string): set<string> {
    PlusMissing(Lessened(h, desired, f, scope), ToGrant(At(h, scope), scope, Wanted(desired, scope)))
  }

  /** Every scope that is an escape is moved by the diff of the one scope that escapes to it, and no other moves. */
  ghost predicate Updated(h: Holdings, desired: map<string, seq<string>>, f: Fates, h': Holdings) {
    forall scope :: UpdatedAt(h, desired, f, h', scope)
  }

  ghost predicate UpdatedAt(h: Holdings, desired: map<string, seq<string>>, f: Fates, h': Holdings, scope: string) {
    At(h', scope) == if Paired(scope) then Moved(h, desired, f, Unescape(scope)) else At(h, scope)
  }

  lemma UpdatesEverywhere(h: Holdings, read: map<string, seq<string>>, desired: map<string, seq<string>>, all: seq<string>, f: Fates,
                          revokes: seq<string>, grants: seq<string>)
    requires Reads(h, read, all) && Walked(read, desired, revokes, grants)
    requires Update(h, read, desired, all, f, revokes, grants).verdict == Done
    ensures Updated(h, desired, f, Update(h, read, desired, all, f, revokes, grants).held)
  {
    forall scope ensures UpdatedAt(h, desired, f, Update(h, read, desired, all, f, revokes, grants).held, scope) {
      if Paired(scope) {
        UnescapeInverse(scope);
        UpdateAt(h, read, desired, all, f, revokes, grants, Unescape(scope));
      } else {
        UnpairedNeverUpdated(h, read, desired, all, f, revokes, grants, scope);
      }
    }
  }

  /** A scope without percent signs ends as asked unless a failed REVOKE left something that should have gone. */
  ghost predicate Revocable(h: Holdings, desired: map<string, seq<string>>, f: Fates, scope: string) {
    !RevokeFails(f, scope) || Meaning(Wanted(desired, scope)) == {"ALL"} || At(h, scope) <= Wanted(desired, scope)
  }

  lemma PlainScopeExactly(h: Holdings, desired: map<string, seq<string>>, f: Fates, h': Holdings, scope: string)
    requires ProperHoldings(h) && NoGrantOption(desired) && UpdatedAt(h, desired, f, h', scope) && '%' !in scope
    ensures AsAsked(h', desired, scope) <==> Revocable(h, desired, f, scope)
  {
    EscapeFixes(scope);
    EscapeInverse(scope);
    assert Moved(h, desired, f, scope) == AfterGrant(At(h, scope), scope, Wanted(desired, scope), RevokeFails(f, scope));
    assert Proper(At(h, scope)) && "GRANT" !in Wanted(desired, scope);
    ScopeEndsAsAsked(At(h, scope), scope, Wanted(desired, scope), RevokeFails(f, scope));
  }

  /** What must hold before the update for one scope to be as asked after it. */
  ghost predicate EndsAsAsked(h: Holdings, desired: map<string, seq<string>>, f: Fates, scope: string) {
    if '%' !in scope then Revocable(h, desired, f, scope)
    else if Paired(scope) then Moved(h, desired, f, Unescape(scope)) == Meaning(Wanted(desired, scope))
    else AsAsked(h, desired, scope)
  }

  /** Of scopes with percent signs the spec asks for everything, as ALL, without listing more beside it. */
  ghost predicate PlainPercents(desired: map<string, seq<string>>) {
    forall scope :: '%' in scope ==> Plain(Wanted(desired, scope))
  }

  ghost predicate Plain(wanted: set<string>) {
    wanted - {"USAGE"} == Meaning(wanted)
  }

  /** A percent scope that is as asked has no diff, so the scope its statements land on does not move. */
  lemma AsAskedDoesNotMove(h: Holdings, desired: map<string, seq<string>>, f: Fates, scope: string)
    requires '%' in scope && AsAsked(h, desired, scope) && Plain(Wanted(desired, scope))
    ensures Moved(h, desired, f, scope) == Landing(h, scope)
  {
    assert scope != GLOBAL;
    var grants := ToGrant(At(h, scope), scope, Wanted(desired, scope));
    assert ToRevoke(At(h, scope), scope, Wanted(desired, scope)) == {};
    assert grants <= {"USAGE"};
    assert grants - {"USAGE"} == {};
    assert Granted(Landing(h, scope), grants) == Landing(h, scope);
  }

  lemma {:induction false} PercentScopeExactly(h: Holdings, desired: map<string, seq<string>>, f: Fates, h': Holdings, scope: string)
    requires Updated(h, desired, f, h') && PlainPercents(desired) && '%' in scope
    requires forall s :: '%' in s && |s| <= |scope| ==> AsAsked(h', desired, s)
    ensures AsAsked(h, desired, scope)
    decreases |scope|
  {
    assert UpdatedAt(h, desired, f, h', scope) && AsAsked(h', desired, scope);
    if Paired(scope) {
      var u := Unescape(scope);
      UnescapeInverse(scope);
      PercentScopeExactly(h, desired, f, h', u);
      AsAskedDoesNotMove(h, desired, f, u);
    }
  }

  lemma PercentScopesStay(h: Holdings, desired: map<string, seq<string>>, f: Fates, h': Holdings, scope: string)
    requires Updated(h, desired, f, h') && PlainPercents(desired) && '%' in scope
    requires forall s :: '%' in s ==> AsAsked(h, desired, s)
    ensures AsAsked(h', desired, scope)
  {
    assert UpdatedAt(h, desired, f, h', scope) && AsAsked(h, desired, scope);
    if Paired(scope) {
      UnescapeInverse(scope);
      AsAskedDoesNotMove(h, desired, f, Unescape(scope));
    }
  }

  /** Every list says what it means in the words MySQL uses when asked, and *.* is not left out. */
  ghost predicate Canonical(desired: map<string, seq<string>>) {
    forall scope :: Wanted(desired, scope) == Seen(Meaning(Wanted(desired, scope)), scope)
  }

  /** Once the spec is met, a further update reports no change exactly when the spec is canonical. */
  lemma QuietExactlyWhenCanonical(h: Holdings, desired: map<string, seq<string>>)
    requires MeetsSpec(h, desired)
    ensures !Differs(h, desired) <==> Canonical(desired)
  {
    forall scope ensures !DiffersAt(h, desired, scope) <==> Wanted(desired, scope) == Seen(Meaning(Wanted(desired, scope)), scope)
    {
      assert AsAsked(h, desired, scope);
    }
  }

  /** For every walk of both maps and every spec: what must hold beforehand, scope by scope, for an update that ends well to meet the spec. */
  lemma UpdateMeetsSpec(h: Holdings, read: map<string, seq<string>>, desired: map<string, seq<string>>, all: seq<string>, f: Fates,
                        revokes: seq<string>, grants: seq<string>)
    requires ProperHoldings(h) && NoGrantOption(desired) && Reads(h, read, all) && Walked(read, desired, revokes, grants)
    requires Update(h, read, desired, all, f, revokes, grants).verdict == Done
    ensures MeetsSpec(Update(h, read, desired, all, f, revokes, grants).held, desired) <==> forall scope :: EndsAsAsked(h, desired, f, scope)
  {
    var h' := Update(h, read, desired, all, f, revokes, grants).held;
    UpdatesEverywhere(h, read, desired, all, f, revokes, grants);
    forall scope ensures AsAsked(h', desired, scope) <==> EndsAsAsked(h, desired, f, scope) {
      assert UpdatedAt(h, desired, f, h', scope);
      if '%' !in scope {
        PlainScopeExactly(h, desired, f, h', scope);
      }
    }
  }

  /**
    Updates are of no use to percent scopes: with plainly worded ones, an update that ends well meets the spec
    exactly when every percent scope was as asked already and no failed REVOKE mattered to the others.
   */
  lemma PercentsMustBeRightAlready(h: Holdings, read: map<string, seq<string>>, desired: map<string, seq<string>>, all: seq<string>, f: Fates,
                                   revokes: seq<string>, grants: seq<string>)
    requires ProperHoldings(h) && NoGrantOption(desired) && PlainPercents(desired)
    requires Reads(h, read, all) && Walked(read, desired, revokes, grants)
    requires Update(h, read, desired, all, f, revokes, grants).verdict == Done
    ensures MeetsSpec(Update(h, read, desired, all, f, revokes, grants).held, desired) <==>
      forall scope :: if '%' in scope then AsAsked(h, desired, scope) else Revocable(h, desired, f, scope)
  {
    UpdatesEverywhere(h, read, desired, all, f, revokes, grants);
    RightAlreadyExactly(h, desired, f, Update(h, read, desired, all, f, revokes, grants).held);
  }

  lemma RightAlreadyExactly(h: Holdings, desired: map<string, seq<string>>, f: Fates, h': Holdings)
    requires ProperHoldings(h) && NoGrantOption(desired) && PlainPercents(desired) && Updated(h, desired, f, h')
    ensures MeetsSpec(h', desired) <==> forall scope :: if '%' in scope then AsAsked(h, desired, scope) else Revocable(h, desired, f, scope)
  {
    forall scope | '%' !in scope ensures AsAsked(h', desired, scope) <==> Revocable(h, desired, f, scope) {
      assert UpdatedAt(h, desired, f, h', scope);
      PlainScopeExactly(h, desired, f, h', scope);
    }
    if MeetsSpec(h', desired) {
      forall scope | '%' in scope ensures AsAsked(h, desired, scope) {
        PercentScopeExactly(h, desired, f, h', scope);
      }
    }
    if forall scope :: '%' in scope ==> AsAsked(h, desired, scope) {
      forall scope | '%' in scope ensures AsAsked(h', desired, scope) {
        PercentScopesStay(h, desired, f, h', scope);
      }
    }
  }

  /** One scope where the dropped error of a REVOKE leaves the spec unmet. */
  lemma FailedRevokeMatters(f: Fates)
    requires !f.revoke("`a`.*")
    ensures !EndsAsAsked(map["`a`.*" := {"SELECT"}], map[], f, "`a`.*")
  {
    assert '%' !in "`a`.*";
    assert "SELECT" in At(map["`a`.*" := {"SELECT"}], "`a`.*");
  }

  /** A wildcard that is asked for is not given: not with one percent sign, and not with two that stand apart. */
  lemma WildcardNotGiven(f: Fates)
    ensures !Paired("`a%`.*") && !Paired("`a%b%`.*")
    ensures !EndsAsAsked(map[], map["`a%`.*" := ["SELECT"]], f, "`a%`.*")
  {
    var s := "`a%`.*";
    assert s[1..][1..] == "%`.*";
    assert !Paired("%`.*") && !Paired("%b%`.*");
    assert "`a%b%`.*"[1..][1..] == "%b%`.*";
    assert s[2] == '%' && '%' in s;
    assert Wanted(map[s := ["SELECT"]], s) == {"SELECT"};
    assert "SELECT" in Meaning({"SELECT"});
    assert At(map[], s) == {};
  }

  /** Where the spec is met, one more update says "no change" exactly when the spec is canonical. */
  lemma NextUpdateIsQuiet(h: Holdings, read: map<string, seq<string>>, desired: map<string, seq<string>>, all: seq<string>, f: Fates,
                          revokes: seq<string>, grants: seq<string>)
    requires MeetsSpec(h, desired) && Reads(h, read, all) && Walked(read, desired, revokes, grants)
    requires Update(h, read, desired, all, f, revokes, grants).verdict != Panic
    ensures var p := Update(h, read, desired, all, f, revokes, grants);
      p.verdict == Done && !p.changes <==> Canonical(desired)
  {
    UpdateVerdict(h, read, desired, all, f, revokes, grants);
    QuietExactlyWhenCanonical(h, desired);
    if !Differs(h, desired) {
      forall scope ensures !GrantRefused(h, desired, f, scope) {
        assert !DiffersAt(h, desired, scope);
      }
    }
  }

  /** The map unpacked from a spec always names *.*; with USAGE there if nothing else is asked for. */
  function WithGlobalUsage(desired: map<string, seq<string>>): map<string, seq<string>> {
    if GLOBAL in desired then desired else desired[GLOBAL := ["USAGE"]]
  }

  /** What that default is for: without it a spec that never mentions *.* could not come to rest. */
  lemma GlobalUsageMakesCanonical(desired: map<string, seq<string>>)
    requires GLOBAL !in desired
    ensures !Canonical(desired)
    ensures Canonical(WithGlobalUsage(desired)) <==>
      forall scope :: scope in desired ==> Funk.Elems(desired[scope]) == Meaning(Funk.Elems(desired[scope]))
  {
    var d := WithGlobalUsage(desired);
    assert Wanted(desired, GLOBAL) == {};
    assert Seen(Meaning(Wanted(desired, GLOBAL)), GLOBAL) == {"USAGE"};
    assert Wanted(d, GLOBAL) == {"USAGE"};
    assert Meaning({"USAGE"}) == {};
    forall scope | scope != GLOBAL ensures Wanted(d, scope) == Wanted(desired, scope) {
    }
    if forall scope :: scope in desired ==> Funk.Elems(desired[scope]) == Meaning(Funk.Elems(desired[scope])) {
      forall scope ensures Wanted(d, scope) == Seen(Meaning(Wanted(d, scope)), scope) {
        if scope !in d {
          assert Meaning({}) == {};
        }
      }
    }
    if Canonical(d) {
      forall scope | scope in desired ensures Funk.Elems(desired[scope]) == Meaning(Funk.Elems(desired[scope])) {
        assert Wanted(d, scope) == Seen(Meaning(Wanted(d, scope)), scope);
      }
    }
  }
}
