/** The world the linker works in, and why a library cannot be had. */
module LibFaults {
  import opened SoPool
  import opened LibGraph
  import opened LibRecords

  const SOINFO_NAME_LEN: nat := 128

  /** What can go wrong with one attempt to load a file that is there, besides what the linker itself decides. */
  datatype Fault = Fine | Unreadable | Unmappable | Unrelocatable | Unprotectable

  /** Which libraries there are and what they need; and what goes wrong with the attempts to load them, in their order. */
  datatype World = World(fs: map<string, seq<string>>, faults: nat -> Fault)

  /** Linking fails although all that is needed is there. */
  predicate Spoils(fault: Fault) {
    fault == Unrelocatable || fault == Unprotectable
  }

  /** The first record with that name, which is the one `find_library` looks at; 0 if there is none. */
  ghost function FirstNamed(f: Infos, so: seq<Id>, name: string): Id
    decreases so
  {
    if so == [] then NULL
    else if so[0] in f && f[so[0]].name == name then so[0]
    else FirstNamed(f, so[1..], name)
  }

  lemma {:induction false} FirstNamedIs(f: Infos, so: seq<Id>, name: string, k: nat)
    requires k <= |so| && forall i | 0 <= i < k :: so[i] in f && f[so[i]].name != name
    ensures FirstNamed(f, so, name) == FirstNamed(f, so[k..], name)
    ensures k == |so| ==> FirstNamed(f, so, name) == NULL
    ensures k < |so| && so[k] in f && f[so[k]].name == name ==> FirstNamed(f, so, name) == so[k]
    decreases |so|
  {
    if k > 0 {
      assert so[0] in f && f[so[0]].name != name;
      assert forall i | 0 <= i < k - 1 :: so[1..][i] == so[i + 1];
      FirstNamedIs(f, so[1..], name, k - 1);
      assert so[1..][k - 1..] == so[k..];
    } else {
      assert so[0..] == so;
    }
  }

  /** Why there is no library to be had under a name. */
  datatype Why =
    | Loaded
    | NoFile
    | LongName
    | PoolFull
    | Unusable
    | Faulty(attempt: nat)
    | Lacks(needed: string, why: Why)

  /** The reason holds: of the file system, of the linker's records, of an attempt made for that name, or of something needed. */
  ghost predicate Excused(w: World, f: Infos, so: seq<Id>, tried: seq<string>, name: string, why: Why)
    decreases why
  {
    match why
    case Loaded => false
    case NoFile => name !in w.fs
    case LongName => |BaseName(name)| >= SOINFO_NAME_LEN
    case PoolFull => |so| == SO_MAX + 1
    case Unusable => exists e :: e in so && e in f && f[e].name == BaseName(name) && !Usable(f[e])
    case Faulty(k) => k < |tried| && tried[k] == name && w.faults(k) != Fine
    case Lacks(needed, inner) => name in w.fs && needed in w.fs[name] && Excused(w, f, so, tried, needed, inner)
  }

  ghost predicate FailedKept(f: Infos, so: seq<Id>, f': Infos, so': seq<Id>, e: Id) {
    e in so && e in f && !Usable(f[e]) ==> e in so' && e in f' && f'[e].name == f[e].name && !Usable(f'[e])
  }

  /** A reason goes on holding while nothing that failed recovers. */
  lemma {:induction false} StillExcused(w: World, f: Infos, so: seq<Id>, tried: seq<string>, f': Infos, so': seq<Id>,
                                        tried': seq<string>, name: string, why: Why)
    requires Excused(w, f, so, tried, name, why) && tried <= tried' && (|so| == SO_MAX + 1 ==> |so'| == SO_MAX + 1)
    requires forall e {:trigger FailedKept(f, so, f', so', e)} :: FailedKept(f, so, f', so', e)
    ensures Excused(w, f', so', tried', name, why)
    decreases why
  {
    match why
    case Unusable =>
      var e :| e in so && e in f && f[e].name == BaseName(name) && !Usable(f[e]);
      assert FailedKept(f, so, f', so', e);
    case Lacks(needed, inner) => StillExcused(w, f, so, tried, f', so', tried', needed, inner);
    case _ =>
  }
}
