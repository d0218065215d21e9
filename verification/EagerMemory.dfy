/** The reference machine for copy-on-write: every process has private pages and
    fork copies all of them at once.  It has no frames, no counts and no
    faults. */
module EagerMemory {
  import opened PageTables
  import opened VirtualMemory

  /** A page as its process sees it.  The contents of zero-filled-on-demand
      pages are left open. */
  datatype Shadow = Private(contents: Page, writable: bool) | OnDemand

  type Eager = map<Loc, Shadow>

  /** A copied page: same contents; write access is never lost. */
  predicate CopyOf(original: Shadow, copy: Shadow) {
    match original
    case Private(contents, writable) => copy.Private? && copy.contents == contents && (writable ==> copy.writable)
    case OnDemand => copy.OnDemand?
  }

  /** Process `c` gets a copy of each page of `p` in the directories below `n`;
      no other page changes. */
  ghost predicate Forked(m: Eager, m': Eager, p: nat, c: nat, n: nat) {
    && (forall l: Loc :: l.pid != c ==> (l in m' <==> l in m) && (l in m ==> m'[l] == m[l]))
    && (forall i: nat, j: nat :: Loc(c, i, j) in m' <==> i < n && Loc(p, i, j) in m)
    && (forall i: nat, j: nat :: i < n && Loc(p, i, j) in m && Loc(c, i, j) in m' ==> CopyOf(m[Loc(p, i, j)], m'[Loc(c, i, j)]))
  }

  /** A byte written to a page the process may write; any other write has no
      effect. */
  function Written(m: Eager, l: Loc, off: nat, v: bv8): Eager {
    if l in m && m[l].Private? && m[l].writable && off < |m[l].contents|
    then m[l := m[l].(contents := m[l].contents[off := v])]
    else m
  }

  /** Every page of `p` goes away. */
  function Dropped(m: Eager, p: nat): Eager {
    map l | l in m && l.pid != p :: m[l]
  }
}
