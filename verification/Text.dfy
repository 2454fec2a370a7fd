// Strings as the Go standard library treats them, for single-character separators.

module Text {
  const SPACES: set<char> := {' ', '\t', '\n', '\r', '\U{0B}', '\U{0C}', '\U{85}', '\U{A0}'}

  function Split(s: string, sep: char): (parts: seq<string>)
    ensures |parts| >= 1
  {
    if s == "" then [""]
    else
      var rest := Split(s[1..], sep);
      if s[0] == sep then [""] + rest else [[s[0]] + rest[0]] + rest[1..]
  }

  function Join(parts: seq<string>, sep: string): string {
    if parts == [] then ""
    else if |parts| == 1 then parts[0]
    else parts[0] + sep + Join(parts[1..], sep)
  }

  function TrimLeft(s: string, cut: set<char>): string {
    if s != "" && s[0] in cut then TrimLeft(s[1..], cut) else s
  }

  function TrimRight(s: string, cut: set<char>): string {
    if s != "" && s[|s| - 1] in cut then TrimRight(s[..|s| - 1], cut) else s
  }

  function Trim(s: string, cut: set<char>): string {
    TrimRight(TrimLeft(s, cut), cut)
  }

  function TrimSpace(s: string): string {
    Trim(s, SPACES)
  }

  /** Case mapping of the ASCII letters; every other character is left alone. */
  function UpperChar(c: char): char {
    if 'a' <= c <= 'z' then c - 'a' + 'A' else c
  }

  function LowerChar(c: char): char {
    if 'A' <= c <= 'Z' then c - 'A' + 'a' else c
  }

  function ToUpper(s: string): string {
    seq(|s|, i requires 0 <= i < |s| => UpperChar(s[i]))
  }

  function ToLower(s: string): string {
    seq(|s|, i requires 0 <= i < |s| => LowerChar(s[i]))
  }

  predicate HasPrefix(s: string, prefix: string) {
    prefix <= s
  }

  predicate HasSuffix(s: string, suffix: string) {
    |suffix| <= |s| && s[|s| - |suffix|..] == suffix
  }

  function TrimPrefix(s: string, prefix: string): string {
    if HasPrefix(s, prefix) then s[|prefix|..] else s
  }

  function TrimSuffix(s: string, suffix: string): string {
    if HasSuffix(s, suffix) then s[..|s| - |suffix|] else s
  }

  /** The text after the first occurrence of `c` (the second part of a two-way split). */
  function AfterFirst(s: string, c: char): string
    requires c in s
  {
    if s[0] == c then s[1..] else AfterFirst(s[1..], c)
  }

  // ---------- Split and Join ----------

  lemma {:induction false} SplitPlain(s: string, sep: char)
    requires sep !in s
    ensures Split(s, sep) == [s]
  {
    if s != "" {
      SplitPlain(s[1..], sep);
      assert [s[0]] + s[1..] == s;
    }
  }

  lemma {:induction false} SplitCons(a: string, sep: char, b: string)
    requires sep !in a
    ensures Split(a + [sep] + b, sep) == [a] + Split(b, sep)
  {
    var s := a + [sep] + b;
    if a == "" {
      assert s[1..] == b;
    } else {
      SplitCons(a[1..], sep, b);
      assert s[1..] == a[1..] + [sep] + b;
      assert [a[0]] + a[1..] == a;
    }
  }

  lemma {:induction false} SplitClean(s: string, sep: char)
    ensures forall p :: p in Split(s, sep) ==> sep !in p
  {
    if s != "" {
      SplitClean(s[1..], sep);
    }
  }

  lemma {:induction false} JoinSplit(s: string, sep: char)
    ensures Join(Split(s, sep), [sep]) == s
  {
    if s != "" {
      var rest := Split(s[1..], sep);
      JoinSplit(s[1..], sep);
      assert [s[0]] + s[1..] == s;
      if s[0] == sep {
        assert ([""] + rest)[1..] == rest;
      } else if |rest| > 1 {
        var parts := [[s[0]] + rest[0]] + rest[1..];
        assert parts[1..] == rest[1..];
        assert s == [s[0]] + (rest[0] + [sep] + Join(rest[1..], [sep]));
      }
    }
  }

  /** Pieces without the separator come back from their join. */
  lemma {:induction false} SplitOfJoin(parts: seq<string>, sep: char)
    requires parts != [] && forall i :: 0 <= i < |parts| ==> sep !in parts[i]
    ensures Split(Join(parts, [sep]), sep) == parts
  {
    if |parts| == 1 {
      SplitPlain(parts[0], sep);
    } else {
      var rest := parts[1..];
      assert forall i :: 0 <= i < |rest| ==> rest[i] == parts[i + 1];
      SplitOfJoin(rest, sep);
      SplitCons(parts[0], sep, Join(rest, [sep]));
      assert parts == [parts[0]] + rest;
    }
  }

  /** A character other than the separator survives in some piece. */
  lemma {:induction false} SplitKeeps(s: string, sep: char, c: char)
    requires c in s && c != sep
    ensures exists p :: p in Split(s, sep) && c in p
  {
    if s[0] == c {
      assert Split(s, sep)[0][0] == c;
      assert Split(s, sep)[0] in Split(s, sep);
    } else {
      SplitKeeps(s[1..], sep, c);
      var rest := Split(s[1..], sep);
      var p :| p in rest && c in p;
      if s[0] == sep {
        assert p in Split(s, sep);
      } else if p == rest[0] {
        assert ([s[0]] + rest[0]) in Split(s, sep);
      } else {
        assert p in rest[1..];
        assert p in Split(s, sep);
      }
    }
  }

  // ---------- Trim ----------

  predicate Clean(s: string, cut: set<char>) {
    s == "" || (s[0] !in cut && s[|s| - 1] !in cut)
  }

  lemma TrimClean(s: string, cut: set<char>)
    requires Clean(s, cut)
    ensures Trim(s, cut) == s
  {
  }

  lemma TrimDropsFirst(c: char, s: string, cut: set<char>)
    requires c in cut
    ensures Trim([c] + s, cut) == Trim(s, cut)
  {
    assert ([c] + s)[1..] == s;
  }

  lemma {:induction false} TrimLeftKeeps(s: string, cut: set<char>, c: char)
    requires c in s && c !in cut
    ensures c in TrimLeft(s, cut)
  {
    if s[0] in cut {
      TrimLeftKeeps(s[1..], cut, c);
    }
  }

  lemma {:induction false} TrimRightKeeps(s: string, cut: set<char>, c: char)
    requires c in s && c !in cut
    ensures c in TrimRight(s, cut)
  {
    if s[|s| - 1] in cut {
      TrimRightKeeps(s[..|s| - 1], cut, c);
    }
  }

  lemma LowerFixed(s: string)
    requires forall i :: 0 <= i < |s| ==> !('A' <= s[i] <= 'Z')
    ensures ToLower(s) == s
  {
  }
}
