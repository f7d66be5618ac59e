/** The directory a fetch script publishes into, as a map from path to bytes, and the
    file-system calls the scripts make on it. A run of a script is the sequence of its calls;
    a crash leaves the directory in the state after some prefix of that sequence. */
module Directory {
  newtype byte = x: int | 0 <= x < 256
  type Bytes = seq<byte>

  /** `Live` names are what the application opens, `Part` names the geo script's temporaries,
      `Staged` names the files inside the threat script's staging directory, whose name ends
      in a suffix drawn for each run. */
  datatype Path =
    | Live(name: string)
    | Part(name: string)
    | StagingDir(suffix: string)
    | Staged(suffix: string, name: string)
    | Manifest
    | Other(name: string)

  type Files = map<Path, Bytes>

  datatype Event =
    | Create(path: Path)                 // open for writing: creates or truncates
    | Append(path: Path, bytes: Bytes)
    | Move(source: Path, target: Path)   // os.replace, atomic
    | Remove(path: Path)                 // unlink(missing_ok=True)

  function Apply(fs: Files, e: Event): Files {
    match e
    case Create(p) => fs[p := []]
    case Append(p, b) => fs[p := (if p in fs then fs[p] else []) + b]
    case Move(s, t) => if s in fs then (fs - {s})[t := fs[s]] else fs
    case Remove(p) => fs - {p}
  }

  function Run(fs: Files, es: seq<Event>): Files
    decreases es
  {
    if es == [] then fs else Run(Apply(fs, es[0]), es[1..])
  }

  /** `P` holds before the first call and after every call. */
  ghost predicate Always(fs: Files, es: seq<Event>, P: Files -> bool)
    decreases es
  {
    P(fs) && (es != [] ==> Always(Apply(fs, es[0]), es[1..], P))
  }

  lemma {:induction false} RunConcat(fs: Files, a: seq<Event>, b: seq<Event>)
    ensures Run(fs, a + b) == Run(Run(fs, a), b)
    decreases a
  {
    if a == [] {
      assert a + b == b;
    } else {
      assert (a + b)[1..] == a[1..] + b;
      RunConcat(Apply(fs, a[0]), a[1..], b);
    }
  }

  lemma {:induction false} AlwaysConcat(fs: Files, a: seq<Event>, b: seq<Event>, P: Files -> bool)
    requires Always(fs, a, P) && Always(Run(fs, a), b, P)
    ensures Always(fs, a + b, P)
    decreases a
  {
    if a == [] {
      assert a + b == b;
    } else {
      assert (a + b)[1..] == a[1..] + b;
      AlwaysConcat(Apply(fs, a[0]), a[1..], b, P);
    }
  }

  /** `Always` is exactly "in the state a crash after k calls leaves, for every k". */
  lemma {:induction false} AlwaysAtEveryPrefix(fs: Files, es: seq<Event>, P: Files -> bool)
    ensures Always(fs, es, P) <==> forall k :: 0 <= k <= |es| ==> P(Run(fs, es[..k]))
    decreases es
  {
    if es == [] {
      assert es[..0] == [];
    } else {
      var rest := es[1..];
      AlwaysAtEveryPrefix(Apply(fs, es[0]), rest, P);
      assert es[..0] == [];
      forall k | 1 <= k <= |es|
        ensures Run(fs, es[..k]) == Run(Apply(fs, es[0]), rest[..k - 1])
      {
        assert es[..k][1..] == rest[..k - 1];
      }
      if forall k :: 0 <= k <= |es| ==> P(Run(fs, es[..k])) {
        forall k | 0 <= k <= |rest|
          ensures P(Run(Apply(fs, es[0]), rest[..k]))
        {
          assert P(Run(fs, es[..k + 1]));
        }
      }
    }
  }

  lemma {:induction false} AlwaysWeaken(fs: Files, es: seq<Event>, P: Files -> bool, Q: Files -> bool)
    requires Always(fs, es, P)
    requires forall st :: P(st) ==> Q(st)
    ensures Always(fs, es, Q)
    decreases es
  {
    if es != [] {
      AlwaysWeaken(Apply(fs, es[0]), es[1..], P, Q);
    }
  }

  lemma {:induction false} AlwaysEnd(fs: Files, es: seq<Event>, P: Files -> bool)
    requires Always(fs, es, P)
    ensures P(Run(fs, es))
    decreases es
  {
    if es != [] {
      AlwaysEnd(Apply(fs, es[0]), es[1..], P);
    }
  }

  /** The paths a call may change. */
  function Touches(e: Event): set<Path> {
    match e
    case Create(p) => {p}
    case Append(p, _) => {p}
    case Move(s, t) => {s, t}
    case Remove(p) => {p}
  }

  ghost predicate Same(a: Files, b: Files, p: Path) {
    (p in a <==> p in b) && (p in a ==> a[p] == b[p])
  }

  ghost predicate SameOutside(a: Files, b: Files, ps: set<Path>) {
    forall p :: p !in ps ==> Same(a, b, p)
  }

  /** Calls confined to `ps` leave every other path as it was, at every step. */
  lemma {:induction false} Confined(fs: Files, es: seq<Event>, ps: set<Path>)
    requires forall e :: e in es ==> Touches(e) <= ps
    ensures Always(fs, es, st => SameOutside(fs, st, ps))
    ensures SameOutside(fs, Run(fs, es), ps)
    decreases es
  {
    if es != [] {
      var next := Apply(fs, es[0]);
      assert es[0] in es;
      assert SameOutside(fs, next, ps);
      Confined(next, es[1..], ps);
      AlwaysWeaken(next, es[1..], st => SameOutside(next, st, ps), st => SameOutside(fs, st, ps));
    }
  }

  /** The open directory. `log` records every call made on it, so that `Valid` says the
      directory is what that call sequence produces. */
  class Disk {
    var files: Files
    ghost var log: seq<Event>
    ghost const start: Files

    ghost predicate Valid() reads this {
      files == Run(start, log)
    }

    constructor (fs: Files)
      ensures Valid() && files == fs && start == fs && log == []
    {
      files := fs;
      log := [];
      start := fs;
    }

    method Do(e: Event)
      requires Valid()
      modifies this
      ensures Valid()
      ensures log == old(log) + [e] && files == Apply(old(files), e)
    {
      RunConcat(start, log, [e]);
      match e {
        case Create(p) => files := files[p := []];
        case Append(p, b) => files := files[p := (if p in files then files[p] else []) + b];
        case Move(s, t) => if s in files { files := (files - {s})[t := files[s]]; }
        case Remove(p) => files := files - {p};
      }
      log := log + [e];
    }
  }
}
