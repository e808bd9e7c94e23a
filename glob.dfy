/**
 * Python's `fnmatch.fnmatch(name, pattern)` on a POSIX system, restricted to
 * the wildcards `*` (any run of characters) and `?` (exactly one character);
 * every other pattern character matches itself. The whole name must match.
 */
module Glob {
  import opened Seqs

  function Match(pattern: string, name: string): bool
    decreases |pattern| + |name|
  {
    if pattern == [] then name == []
    else if pattern[0] == '*' then
      Match(pattern[1..], name) || (name != [] && Match(pattern, name[1..]))
    else
      name != [] && (pattern[0] == '?' || pattern[0] == name[0]) && Match(pattern[1..], name[1..])
  }

  /** A pattern without wildcards. */
  predicate Literal(pattern: string)
  {
    '*' !in pattern && '?' !in pattern
  }

  /** `*` matches every name. */
  lemma {:induction false} StarMatchesAll(name: string)
    ensures Match("*", name)
    decreases |name|
  {
    if name != [] {
      StarMatchesAll(name[1..]);
    }
  }

  /** A pattern without wildcards matches exactly the name it spells. */
  lemma {:induction false} LiteralMatchesItself(pattern: string, name: string)
    requires Literal(pattern)
    ensures Match(pattern, name) <==> name == pattern
    decreases |pattern|
  {
    if pattern != [] && name != [] {
      assert Literal(pattern[1..]);
      LiteralMatchesItself(pattern[1..], name[1..]);
      assert name == [name[0]] + name[1..];
      assert pattern == [pattern[0]] + pattern[1..];
    }
  }

  /** `prefix*` matches exactly the names that start with `prefix`. */
  lemma {:induction false} PrefixStarMatchesPrefixed(prefix: string, name: string)
    requires Literal(prefix)
    ensures Match(prefix + "*", name) <==> prefix <= name
    decreases |prefix|
  {
    if prefix == [] {
      assert prefix + "*" == "*";
      StarMatchesAll(name);
    } else {
      var p := prefix + "*";
      assert p[0] == prefix[0] && p[1..] == prefix[1..] + "*";
      assert Literal(prefix[1..]);
      if name != [] {
        PrefixStarMatchesPrefixed(prefix[1..], name[1..]);
        assert prefix <= name <==> prefix[0] == name[0] && prefix[1..] <= name[1..];
      }
    }
  }

  /** `[n for n in names if fnmatch.fnmatch(n, pattern)]`. */
  function Filter(names: seq<string>, pattern: string): (r: seq<string>)
    ensures forall x :: x in r <==> x in names && Match(pattern, x)
    ensures |r| <= |names|
    ensures (forall i :: 0 <= i < |names| ==> Match(pattern, names[i])) ==> r == names
    decreases |names|
  {
    if names == [] then []
    else if Match(pattern, names[0]) then [names[0]] + Filter(names[1..], pattern)
    else Filter(names[1..], pattern)
  }

  /**
   * Filtering keeps the order of the list: the result is the listed names at
   * an increasing run of positions, and those positions are exactly the ones
   * whose name matches.
   */
  lemma {:induction false} FilterKeepsOrder(names: seq<string>, pattern: string) returns (idx: seq<nat>)
    ensures PicksInOrder(names, Filter(names, pattern), idx)
    ensures forall i :: 0 <= i < |names| ==> (i in idx <==> Match(pattern, names[i]))
    decreases |names|
  {
    if names == [] {
      return [];
    }
    var rest := FilterKeepsOrder(names[1..], pattern);
    var shifted := PicksInOrderCons(names, Filter(names[1..], pattern), rest);
    assert forall i :: 0 < i < |names| ==> names[i] == names[1..][i - 1];
    if Match(pattern, names[0]) {
      idx := [0] + shifted;
    } else {
      idx := shifted;
    }
  }

  /** The selection a remove of `conan-*` makes on the list `conan-qt`, `conan-zlib`, `other-lib`. */
  lemma RemovePatternExample()
    ensures Filter(["conan-qt", "conan-zlib", "other-lib"], "conan-*") == ["conan-qt", "conan-zlib"]
  {
    PrefixStarMatchesPrefixed("conan-", "conan-qt");
    PrefixStarMatchesPrefixed("conan-", "conan-zlib");
    PrefixStarMatchesPrefixed("conan-", "other-lib");
    assert "conan-" + "*" == "conan-*";
    assert !("conan-" <= "other-lib") by { assert "other-lib"[0] != 'c'; }
    var names := ["conan-qt", "conan-zlib", "other-lib"];
    assert names[1..] == ["conan-zlib", "other-lib"];
    assert names[1..][1..] == ["other-lib"];
  }
}
