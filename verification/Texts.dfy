/** Splitting text at '/' and joining it again. Each character stands for one byte. */
module Texts {
  /** `str::split('/')`: always at least one part. */
  function Split(s: string): (parts: seq<string>)
    ensures |parts| >= 1
    ensures forall p <- parts :: '/' !in p
  {
    if s == "" then [""]
    else
      var rest := Split(s[1..]);
      if s[0] == '/' then [""] + rest else [[s[0]] + rest[0]] + rest[1..]
  }

  function Join(parts: seq<string>): string {
    if parts == [] then "" else if |parts| == 1 then parts[0] else parts[0] + "/" + Join(parts[1..])
  }

  lemma {:induction false} JoinSplit(s: string)
    ensures Join(Split(s)) == s
  {
    if s != "" {
      JoinSplit(s[1..]);
      var rest := Split(s[1..]);
      if s[0] == '/' {
        assert ([""] + rest)[1..] == rest;
        assert s == "/" + s[1..];
      } else {
        var parts := [[s[0]] + rest[0]] + rest[1..];
        assert parts[1..] == rest[1..] && s == [s[0]] + s[1..];
        assert Join(parts) == [s[0]] + Join(rest);
      }
    }
  }

  /** Splitting a part without '/' in front of the rest. */
  lemma {:induction false} SplitPart(p: string, s: string)
    requires '/' !in p
    ensures Split(p) == [p]
    ensures Split(p + "/" + s) == [p] + Split(s)
  {
    if p == "" {
      assert p + "/" + s == "/" + s && (p + "/" + s)[1..] == s;
    } else {
      SplitPart(p[1..], s);
      assert (p + "/" + s)[1..] == p[1..] + "/" + s;
      assert p == [p[0]] + p[1..];
    }
  }

  lemma {:induction false} SplitTail(parts: seq<string>)
    requires parts != [] && forall i | 0 <= i < |parts| :: '/' !in parts[i]
    ensures Split(Join(parts)) == parts
  {
    if |parts| == 1 {
      SplitPart(parts[0], "");
    } else {
      SplitTail(parts[1..]);
      SplitPart(parts[0], Join(parts[1..]));
      assert parts == [parts[0]] + parts[1..];
    }
  }

  lemma SplitJoin(parts: seq<string>)
    requires parts != [] && forall p <- parts :: '/' !in p
    ensures Split(Join(parts)) == parts
  {
    SplitTail(parts);
  }

  lemma JoinInjective(a: seq<string>, b: seq<string>)
    requires a != [] && b != [] && Join(a) == Join(b)
    requires (forall p <- a :: '/' !in p) && (forall p <- b :: '/' !in p)
    ensures a == b
  {
    SplitJoin(a);
    SplitJoin(b);
  }

  /** A relative path component that is not empty, `.` or `..`. */
  predicate Plain(c: string) {
    c != "" && c != "." && c != ".."
  }

  /** `is_clean_relative` (src/state.rs:226-232). */
  predicate CleanRelative(path: string) {
    path != "" && '\0' !in path && forall c <- Split(path) :: Plain(c)
  }

  lemma {:induction false} JoinChars(parts: seq<string>, bad: char)
    requires bad != '/' && forall p <- parts :: bad !in p
    ensures bad !in Join(parts)
  {
    if |parts| > 1 {
      JoinChars(parts[1..], bad);
    }
  }

  /** Joining plain components gives a clean relative path. */
  lemma JoinIsClean(parts: seq<string>)
    requires parts != [] && forall p <- parts :: Plain(p) && '/' !in p && '\0' !in p
    ensures CleanRelative(Join(parts))
  {
    SplitJoin(parts);
    JoinChars(parts, '\0');
    assert parts[0] != "";
  }
}
