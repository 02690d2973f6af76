/** Paths as strings: joining, splitting off the last name, and the names on the way. */
module PathStrings {
  import opened Names
  import opened PathTrees

  /** A name that is one component of a path. */
  predicate Plain(n: Name) {
    n != "" && '/' !in n
  }

  predicate AllPlain(p: Steps) {
    forall n :: n in p ==> Plain(n)
  }

  function Render(p: Steps): string
    decreases |p|
  {
    if p == [] then "/" else Join(Render(Parent(p)), Last(p))
  }

  /** One past the last slash, or 0. */
  function AfterSlash(s: string): (i: nat)
    ensures i <= |s|
  {
    if s == "" then 0 else if s[|s| - 1] == '/' then |s| else AfterSlash(s[..|s| - 1])
  }

  function WithoutSlashes(s: string): string {
    if s != "" && s[|s| - 1] == '/' then WithoutSlashes(s[..|s| - 1]) else s
  }

  predicate OnlySlashes(s: string) {
    forall c :: c in s ==> c == '/'
  }

  /** os.path.dirname. */
  function Dirname(s: string): string {
    var head := s[..AfterSlash(s)];
    if OnlySlashes(head) then head else WithoutSlashes(head)
  }

  /** os.path.basename. */
  function Basename(s: string): string {
    s[AfterSlash(s)..]
  }

  lemma {:induction false} AfterSlashOf(x: string, n: string)
    requires '/' !in n && (x == "" || x[|x| - 1] == '/')
    ensures AfterSlash(x + n) == |x|
    decreases |n|
  {
    if n != "" {
      var s := x + n;
      assert s[..|s| - 1] == x + n[..|n| - 1];
      assert s[|s| - 1] == n[|n| - 1];
      AfterSlashOf(x, n[..|n| - 1]);
    } else {
      assert x + n == x;
    }
  }

  lemma {:induction false} Rendered(p: Steps)
    requires AllPlain(p)
    ensures Render(p) != "" && Render(p)[0] == '/'
    ensures p == [] <==> Render(p)[|Render(p)| - 1] == '/'
    decreases |p|
  {
    if p != [] {
      Rendered(Parent(p));
      assert Plain(Last(p));
    }
  }

  /** The text of a path splits back into its parent's and its last name. */
  lemma RenderSplits(p: Steps)
    requires AllPlain(p) && p != []
    ensures Dirname(Render(p)) == Render(Parent(p)) && Basename(Render(p)) == Last(p)
  {
    hide Dirname, Basename;
    var up, n := Render(Parent(p)), Last(p);
    Rendered(Parent(p));
    assert Plain(n);
    SplitsAt(if Parent(p) == [] then up else up + "/", n);
    if Parent(p) != [] {
      HeadStripped(up);
    }
  }

  lemma SplitsAt(head: string, n: Name)
    requires Plain(n) && head != "" && head[|head| - 1] == '/'
    ensures Basename(head + n) == n
    ensures Dirname(head + n) == if OnlySlashes(head) then head else WithoutSlashes(head)
  {
    AfterSlashOf(head, n);
    assert (head + n)[..|head|] == head && (head + n)[|head|..] == n;
  }

  lemma HeadStripped(up: string)
    requires up != "" && up[|up| - 1] != '/'
    ensures !OnlySlashes(up + "/") && WithoutSlashes(up + "/") == up
  {
    assert (up + "/")[..|up|] == up;
    assert up[|up| - 1] in up + "/";
  }

  lemma PlainParent(p: Steps)
    requires AllPlain(p) && p != []
    ensures AllPlain(Parent(p))
  {}

  /** Different paths have different texts. */
  lemma {:induction false} RenderInjective(p: Steps, q: Steps)
    requires AllPlain(p) && AllPlain(q) && Render(p) == Render(q)
    ensures p == q
    decreases |p|
  {
    hide Render, Dirname, Basename, AllPlain;
    Rendered(p);
    Rendered(q);
    if p != [] {
      PlainParent(p);
      PlainParent(q);
      RenderSplits(p);
      RenderSplits(q);
      RenderInjective(Parent(p), Parent(q));
      assert p == Parent(p) + [Last(p)] && q == Parent(q) + [Last(q)];
    }
  }
}
