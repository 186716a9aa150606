/** String helpers: prefix stripping, and the newline join used for the digest
    description together with the split that undoes it. */
module Text {
  import opened Wrappers

  predicate NewlineFree(s: string) {
    '\n' !in s
  }

  /** The remainder of `s` after the prefix `p`, if `s` starts with `p`. */
  function Strip(s: string, p: string): (r: Option<string>)
    ensures r.Some? ==> s == p + r.value
  {
    if p <= s then Some(s[|p|..]) else None
  }

  lemma StripConcat(p: string, rest: string)
    ensures Strip(p + rest, p) == Some(rest)
  {
    assert (p + rest)[|p|..] == rest;
  }

  /** Regroups a concatenation. The line proofs regroup their templates one
      step at a time with it: an equality between whole templates would make
      the solver compare long literals element by element. */
  lemma Assoc(a: string, b: string, c: string)
    ensures a + b + c == a + (b + c)
  {
  }

  /** Python's "\n".join(lines): the empty list joins to the empty string. */
  function Join(lines: seq<string>): (s: string)
    ensures |lines| == 1 ==> s == lines[0]
  {
    if |lines| == 0 then ""
    else if |lines| == 1 then lines[0]
    else lines[0] + "\n" + Join(lines[1..])
  }

  /** Python's s.split("\n"): always at least one part, no part holds a newline. */
  function Split(s: string): (parts: seq<string>)
    ensures |parts| >= 1
    ensures forall i :: 0 <= i < |parts| ==> NewlineFree(parts[i])
    decreases |s|
  {
    if |s| == 0 then [""]
    else
      var rest := Split(s[1..]);
      if s[0] == '\n' then [""] + rest
      else [[s[0]] + rest[0]] + rest[1..]
  }

  lemma {:induction false} SplitNewlineFree(a: string)
    requires NewlineFree(a)
    ensures Split(a) == [a]
    decreases |a|
  {
    if |a| > 0 {
      assert NewlineFree(a[1..]) by {
        forall c | c in a[1..] ensures c != '\n' { assert c in a; }
      }
      SplitNewlineFree(a[1..]);
      assert [a[0]] + a[1..] == a;
    }
  }

  lemma {:induction false} SplitAfterLine(a: string, b: string)
    requires NewlineFree(a)
    ensures Split(a + "\n" + b) == [a] + Split(b)
    decreases |a|
  {
    var s := a + "\n" + b;
    if |a| == 0 {
      assert s[0] == '\n' && s[1..] == b;
    } else {
      assert s[0] == a[0] && s[0] != '\n';
      assert s[1..] == a[1..] + "\n" + b;
      assert NewlineFree(a[1..]) by {
        forall c | c in a[1..] ensures c != '\n' { assert c in a; }
      }
      SplitAfterLine(a[1..], b);
      assert [a[0]] + a[1..] == a;
    }
  }

  /** Splitting the joined lines gives back the lines, in order. */
  lemma {:induction false} SplitJoin(lines: seq<string>)
    requires |lines| >= 1
    requires forall i :: 0 <= i < |lines| ==> NewlineFree(lines[i])
    ensures Split(Join(lines)) == lines
    decreases |lines|
  {
    if |lines| == 1 {
      SplitNewlineFree(lines[0]);
    } else {
      SplitAfterLine(lines[0], Join(lines[1..]));
      SplitJoin(lines[1..]);
      assert [lines[0]] + lines[1..] == lines;
    }
  }

  /** Joining the parts of a split gives back the string. */
  lemma {:induction false} JoinSplit(s: string)
    ensures Join(Split(s)) == s
    decreases |s|
  {
    if |s| > 0 {
      var rest := Split(s[1..]);
      JoinSplit(s[1..]);
      if s[0] == '\n' {
        assert Split(s) == [""] + rest;
        assert ([""] + rest)[1..] == rest;
        assert s == "" + "\n" + s[1..];
      } else {
        var parts := [[s[0]] + rest[0]] + rest[1..];
        assert parts[1..] == rest[1..];
        if |rest| == 1 {
          assert s == [s[0]] + s[1..];
        } else {
          assert Join(rest) == rest[0] + "\n" + Join(rest[1..]);
          assert s == [s[0]] + s[1..];
        }
      }
    }
  }
}
