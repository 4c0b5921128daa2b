/**
The remote side of a deployment: the tree below the deployment base, keyed by
path segments, and the SFTP requests easySFTP sends against it.

A file's contents are identified by their digest (SHA-256 is taken as
injective), and a sync manifest is a file whose contents decode to a listing.

The rules are those of version 3 of the protocol (sections 6.5 and 6.6 of
draft-ietf-secsh-filexfer-02): a rename onto an existing name is an error, and
so is removing a directory that is not empty. `ext` says whether the server
implements posix-rename@openssh.com.

The fault model: a request that is answered "ok" took effect; a request that
is answered with an error, or not answered at all, may or may not have taken
effect, and a failed write may leave anything behind in the file it opened.
A status that says "not there" is true. A generic failure says nothing, also as
the answer to Lstat: only a `candid` server gives it for absent paths only.
*/
module RemoteTree {
  import opened Options

  type Path = seq<string>
  type Digest = int

  datatype Data = Blob(digest: Digest) | Listing(files: map<Path, Digest>)
  datatype Node = File(data: Data) | Dir
  type Tree = map<Path, Node>

  datatype Op =
    | Remove(path: Path)
    | Rmdir(path: Path)
    | Mkdir(path: Path)
    | Write(path: Path, data: Data)
    | Rename(from: Path, to: Path)
    | PosixRename(from: Path, to: Path)
    | Stat(path: Path)

  /** `Lost` is a connection-class failure; the others are status codes. */
  datatype Reply = Ok | NotExist | Denied | Unsupported | Failed | Lost

  function FileAt(t: Tree, k: Path): Option<Data> {
    if k in t && t[k].File? then Some(t[k].data) else None
  }

  function Parent(k: Path): Path
    requires k != []
  {
    k[..|k| - 1]
  }

  predicate IsDir(t: Tree, k: Path) {
    k == [] || (k in t && t[k].Dir?)
  }

  /** Nothing lies strictly below `d`. */
  predicate Vacant(t: Tree, d: Path) {
    forall k | k in t :: d <= k ==> k == d
  }

  ghost predicate WellFormed(t: Tree) {
    forall k | k in t :: k != [] && IsDir(t, Parent(k))
  }

  /** The tree with everything at and below `a` re-rooted at `b`. */
  function Move(t: Tree, a: Path, b: Path): Tree {
    var moved := set k | k in t && a <= k :: b + k[|a|..];
    (map k | k in t && !(a <= k) :: t[k]) +
    (map k | k in moved && b <= k && a + k[|b|..] in t :: t[a + k[|b|..]])
  }

  predicate Writable(t: Tree, p: Path) {
    p != [] && IsDir(t, Parent(p)) && (p in t ==> t[p].File?)
  }

  /** The requests a server can carry out on `t`. `Remove` also takes an empty
      directory: the client library falls back to rmdir. */
  predicate Enabled(ext: bool, t: Tree, op: Op) {
    match op
    case Remove(p) => p in t && (t[p].File? || Vacant(t, p))
    case Rmdir(p) => p in t && t[p].Dir? && Vacant(t, p)
    case Mkdir(p) => p != [] && p !in t && IsDir(t, Parent(p))
    case Write(p, _) => Writable(t, p)
    case Rename(a, b) => a in t && b != [] && b !in t && IsDir(t, Parent(b)) && !(a <= b)
    case PosixRename(a, b) => ext && a in t && t[a].File? && a != b && Writable(t, b)
    case Stat(p) => p == [] || p in t
  }

  function Effect(ext: bool, t: Tree, op: Op): Tree
    requires Enabled(ext, t, op)
  {
    match op
    case Remove(p) => t - {p}
    case Rmdir(p) => t - {p}
    case Mkdir(p) => t[p := Dir]
    case Write(p, d) => t[p := File(d)]
    case Rename(a, b) => Move(t, a, b)
    case PosixRename(a, b) => (t - {a})[b := t[a]]
    case Stat(_) => t
  }

  /** A write that failed half way: the file exists and holds anything. */
  ghost predicate Torn(t: Tree, op: Op, t': Tree) {
    op.Write? && Writable(t, op.path) && op.path in t' && t'[op.path].File?
    && t' == t[op.path := t'[op.path]]
  }

  /** One request and its reply. A status that says "not there" is true. */
  ghost predicate Step(ext: bool, t: Tree, op: Op, r: Reply, t': Tree) {
    && (r.Ok? ==> Enabled(ext, t, op) && t' == Effect(ext, t, op))
    && (!r.Ok? ==> t' == t || (Enabled(ext, t, op) && t' == Effect(ext, t, op)) || Torn(t, op, t'))
    && (op.Stat? && r.NotExist? ==> !Enabled(ext, t, op))
    && ((op.Remove? || op.Rmdir?) && r.NotExist? ==> op.path !in t')
    && (r.Unsupported? ==> t' == t && !ext)
  }

  /** Does a status say neither "not there" nor "refused"? remoteAbsent reads such
      an answer to Lstat as absence. */
  predicate Generic(r: Reply) {
    r.Failed? || r.Unsupported?
  }

  /** A server that shows what is there, unless the connection is lost. */
  ghost predicate Legible(ext: bool, t: Tree, op: Op, r: Reply) {
    op.Stat? && Enabled(ext, t, op) ==> r.Ok? || r.Lost?
  }

  /** A server for which that reading is right. */
  ghost predicate Candid(ext: bool, t: Tree, op: Op, r: Reply) {
    op.Stat? && Generic(r) ==> !Enabled(ext, t, op)
  }

  /** What a server that never fails answers to a request it cannot carry out. */
  function Refusal(ext: bool, t: Tree, op: Op): Reply {
    if (op.Remove? || op.Rmdir? || op.Stat?) && op.path !in t then NotExist
    else if op.PosixRename? && !ext then Unsupported
    else Failed
  }

  /** A server that carries out every request it can, and says so. */
  ghost predicate Prompt(ext: bool, t: Tree, op: Op, r: Reply, t': Tree) {
    if Enabled(ext, t, op) then r.Ok?
    else !r.Ok? && !r.Lost? && t' == t
         && ((op.Remove? || op.Rmdir? || op.Stat?) && op.path !in t ==> r.NotExist?)
         && (op.PosixRename? && !ext ==> r.Unsupported?)
  }

  /** The names one request may change. */
  predicate Touches(op: Op, k: Path) {
    match op
    case Rename(a, b) => a <= k || b <= k
    case PosixRename(a, b) => k == a || k == b
    case Stat(_) => false
    case _ => k == op.path
  }

  ghost predicate Same(t: Tree, t': Tree, k: Path) {
    (k in t <==> k in t') && (k in t ==> t[k] == t'[k])
  }

  /** A request changes nothing outside the names it touches. */
  lemma StepFrame(ext: bool, t: Tree, op: Op, r: Reply, t': Tree, k: Path)
    requires Step(ext, t, op, r, t') && !Touches(op, k)
    ensures Same(t, t', k)
  {
  }

  lemma MovedTo(t: Tree, a: Path, b: Path, k: Path)
    requires !(a <= b)
    ensures b <= k ==> (k in Move(t, a, b) <==> (a + k[|b|..] in t || (k in t && !(a <= k))))
    ensures b <= k && a + k[|b|..] in t ==> Move(t, a, b)[k] == t[a + k[|b|..]]
    ensures a <= k && !(b <= k) ==> k !in Move(t, a, b)
    ensures !(a <= k) && !(b <= k) ==> Same(t, Move(t, a, b), k)
  {
    if b <= k {
      var s := a + k[|b|..];
      if s in t {
        assert a <= s && s[|a|..] == k[|b|..];
        assert b + s[|a|..] == k;
      }
    }
  }

  /** After a rename that took effect the node itself is at its new name. */
  lemma RenameEffect(t: Tree, a: Path, b: Path)
    requires Enabled(false, t, Rename(a, b))
    ensures var t' := Move(t, a, b); b in t' && t'[b] == t[a]
    ensures !(b <= a) ==> a !in Move(t, a, b)
  {
    MovedTo(t, a, b, b);
    MovedTo(t, a, b, a);
    assert a + b[|b|..] == a;
  }

  /** Every request, answered or not, leaves a well formed tree. */
  lemma StepWellFormed(ext: bool, t: Tree, op: Op, r: Reply, t': Tree)
    requires WellFormed(t) && Step(ext, t, op, r, t')
    ensures WellFormed(t')
  {
    if t' != t {
      match op
      case Remove(p) => RemoveWellFormed(t, p, t');
      case Rmdir(p) => RemoveWellFormed(t, p, t');
      case Mkdir(p) => PutWellFormed(t, p, Dir);
      case Write(p, _) => PutWellFormed(t, p, t'[p]);
      case Rename(a, b) => MoveAllWellFormed(t, a, b);
      case PosixRename(a, b) =>
        PutWellFormed(t, b, t[a]);
        RemoveWellFormed(t[b := t[a]], a, t');
      case Stat(_) =>
    }
  }

  lemma PutWellFormed(t: Tree, p: Path, n: Node)
    requires WellFormed(t) && p != [] && IsDir(t, Parent(p))
    requires p in t ==> t[p] == n || t[p].File?
    ensures WellFormed(t[p := n])
  {
  }

  lemma MoveAllWellFormed(t: Tree, a: Path, b: Path)
    requires WellFormed(t) && Enabled(false, t, Rename(a, b))
    ensures WellFormed(Move(t, a, b))
  {
    forall k | k in Move(t, a, b) ensures k != [] && IsDir(Move(t, a, b), Parent(k)) {
      MoveWellFormed(t, a, b, k);
    }
  }

  lemma RemoveWellFormed(t: Tree, p: Path, t': Tree)
    requires WellFormed(t)
    requires t' == t || (p in t && (t[p].File? || Vacant(t, p)) && t' == t - {p})
    ensures WellFormed(t')
  {
    forall k | k in t' ensures k != [] && IsDir(t', Parent(k)) {
      assert k in t;
      if Parent(k) == p {
        assert p <= k;
      }
    }
  }

  lemma MoveWellFormed(t: Tree, a: Path, b: Path, k: Path)
    requires WellFormed(t) && Enabled(false, t, Rename(a, b)) && k in Move(t, a, b)
    ensures k != [] && IsDir(Move(t, a, b), Parent(k))
  {
    MovedTo(t, a, b, k);
    if b <= k && a + k[|b|..] in t {
      MovedHasParent(t, a, b, k);
    } else {
      KeptHasParent(t, a, b, k);
    }
  }

  lemma MovedHasParent(t: Tree, a: Path, b: Path, k: Path)
    requires WellFormed(t) && Enabled(false, t, Rename(a, b)) && b <= k && a + k[|b|..] in t
    ensures k != [] && IsDir(Move(t, a, b), Parent(k))
  {
    var s := k[|b|..];
    if s == [] {
      assert k == b;
      assert !(a <= Parent(b));
      MovedTo(t, a, b, Parent(b));
    } else {
      assert Parent(a + s) == a + Parent(s);
      assert k == b + s && Parent(k) == b + Parent(s);
      assert Parent(k)[|b|..] == Parent(s);
      MovedTo(t, a, b, Parent(k));
    }
  }

  lemma KeptHasParent(t: Tree, a: Path, b: Path, k: Path)
    requires WellFormed(t) && Enabled(false, t, Rename(a, b)) && k in t && !(a <= k)
    ensures k != [] && IsDir(Move(t, a, b), Parent(k))
  {
    assert !(a <= Parent(k));
    MovedTo(t, a, b, Parent(k));
    if b <= Parent(k) {
      assert b <= k && b != k;
      AncestorsExist(t, k, b);
    }
  }

  /** In a well formed tree every non-empty proper prefix of an entry is a directory. */
  lemma {:induction false} AncestorsExist(t: Tree, k: Path, a: Path)
    requires WellFormed(t) && k in t && a <= k && a != k
    ensures IsDir(t, a)
    decreases |k|
  {
    if |a| < |k| - 1 {
      AncestorsExist(t, Parent(k), a);
    } else {
      assert a == Parent(k);
    }
  }

  /** One server. `trace` records the tree after every request, so that a claim
      about it is a claim about every step of a run, a killed one included. */
  class Server {
    var tree: Tree
    ghost var trace: seq<Tree>
    const ext: bool        // implements posix-rename@openssh.com
    const announced: bool  // announced it when the session opened
    const candid: bool     // answers Lstat with a generic failure for absent paths only
    const legible: bool    // shows and reads out what is there, or loses the connection
    const reliable: bool   // carries out and answers every request it can

    ghost predicate Valid()
      reads this
    {
      && trace != [] && trace[|trace| - 1] == tree
      && WellFormed(tree)
      && (ext ==> announced)
      && (reliable ==> legible) && (legible ==> candid)
    }

    /** Sends one request. The body picks any reply and any effect that the
        fault model allows. */
    method Execute(op: Op) returns (r: Reply)
      requires Valid()
      modifies this`tree, this`trace
      ensures Valid()
      ensures Step(ext, old(tree), op, r, tree)
      ensures candid ==> Candid(ext, old(tree), op, r)
      ensures legible ==> Legible(ext, old(tree), op, r)
      ensures reliable ==> Prompt(ext, old(tree), op, r, tree)
      ensures trace == old(trace) + [tree]
    {
      var before := tree;
      var enabled := Enabled(ext, tree, op);
      var lucky: bool := *;
      if enabled && (reliable || lucky) {
        tree := Effect(ext, tree, op);
        r := Ok;
      } else if reliable {
        r := Refusal(ext, tree, op);
      } else {
        var applied: bool := *;
        var torn: bool := *;
        if enabled && applied {
          tree := Effect(ext, tree, op);
        } else if op.Write? && Writable(tree, op.path) && torn {
          var junk: Digest := *;
          tree := tree[op.path := File(Blob(junk))];
        }
        r := *;
        var settled := match op
          case Stat(_) => !r.Ok? && (r.Unsupported? ==> !ext)
                          && (enabled ==> !r.NotExist? && (candid ==> !Generic(r)) && (legible ==> r.Lost?))
          case PosixRename(_, _) => if r.Unsupported? then !ext else !r.Ok?
          case Remove(p) => (r.NotExist? ==> p !in tree) && !r.Ok? && !r.Unsupported?
          case Rmdir(p) => (r.NotExist? ==> p !in tree) && !r.Ok? && !r.Unsupported?
          case _ => !r.Ok? && !r.Unsupported?;
        if !settled {
          r := Lost;
        }
      }
      trace := trace + [tree];
      StepWellFormed(ext, before, op, r, tree);
    }
  }
}
