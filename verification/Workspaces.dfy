/**
 The workspaces of writable roots. A workspace is named by a digest of the
 identity it was made for, is locked while in use, and holds a copy of that
 identity. Nothing is asked of the digest: it may collide.
 */
module Workspaces {
  import opened Wrappers
  import opened Encodings

  /**
   What the file system answers: the workspace or its lock cannot be opened;
   the identity file cannot be created or its write stops; it cannot be read;
   or a directory made after it fails.
   */
  datatype Answer = Works | Unavailable | CreateFails | WriteStops(written: nat) | ReadFails | DirectoryFails

  datatype Fault =
    | NotAvailable | Busy | CreateFailed | WriteFailed | ReadFailed | IdentityMismatch | DirectoryFailed

  /** The identity files and the locks, by name of workspace. */
  datatype State = State(identities: map<string, string>, held: set<string>)

  const EMPTY := State(map[], {})

  datatype Use = Open(id: string, lower: string, answer: Answer) | Close(name: string)

  /** `hex_lower` of the digest of an identity. */
  function NameOf(digest: string -> string, identity: string): string
    requires AllBytes(digest(identity))
  {
    HexOf(digest(identity))
  }

  function Written(identity: string, answer: Answer): string {
    if answer.WriteStops? && answer.written < |identity| then identity[..answer.written] else identity
  }

  /** `ensure_identity`: the identity files and the fault, if any. */
  function Ensured(files: map<string, string>, name: string, expected: string, answer: Answer)
    : (map<string, string>, Option<Fault>)
  {
    if answer.CreateFails? then (files, Some(CreateFailed))
    else if name !in files then
      (files[name := Written(expected, answer)], if answer.WriteStops? then Some(WriteFailed) else None)
    else if answer.ReadFails? then (files, Some(ReadFailed))
    else (files, if files[name] == expected then None else Some(IdentityMismatch))
  }

  /** `stable_overlay_paths`: the state, and the name of the workspace or the fault. */
  function Opened(s: State, name: string, identity: string, answer: Answer): (State, Result<string, Fault>) {
    if answer.Unavailable? then (s, Err(NotAvailable))
    else if name in s.held then (s, Err(Busy))
    else
      var (files, fault) := Ensured(s.identities, name, identity, answer);
      match fault
      case None =>
        if answer.DirectoryFails? then (State(files, s.held), Err(DirectoryFailed))
        else (State(files, s.held + {name}), Ok(name))
      case Some(f) => (State(files, s.held), Err(f))
  }

  class Store {
    var identities: map<string, string>
    var held: set<string>

    function View(): State
      reads this
    {
      State(identities, held)
    }

    constructor ()
      ensures View() == EMPTY
    {
      identities, held := map[], {};
    }

    method EnsureIdentity(name: string, expected: string, answer: Answer) returns (fault: Option<Fault>)
      modifies this`identities
      ensures (identities, fault) == Ensured(old(identities), name, expected, answer)
    {
      if answer.CreateFails? {
        return Some(CreateFailed);
      }
      if name !in identities {
        identities := identities[name := Written(expected, answer)];
        return if answer.WriteStops? then Some(WriteFailed) else None;
      }
      if answer.ReadFails? {
        return Some(ReadFailed);
      }
      var actual := identities[name];
      return if actual == expected then None else Some(IdentityMismatch);
    }

    /** `stable_overlay_paths`; the lock goes with the answer, and is dropped if there is none. */
    method StableOverlayPaths(digest: string -> string, id: string, lower: string, answer: Answer)
      returns (workspace: Result<string, Fault>)
      requires AllBytes(digest(OverlayIdentity(id, lower)))
      modifies this
      ensures var identity := OverlayIdentity(id, lower);
              (View(), workspace) == Opened(old(View()), NameOf(digest, identity), identity, answer)
    {
      var identity := BuildIdentity(OVERLAY_TAG, [id, lower]);
      var name := HexLower(digest(identity));
      if answer.Unavailable? {
        return Err(NotAvailable);
      }
      if name in held {
        return Err(Busy);
      }
      held := held + {name};
      var fault := EnsureIdentity(name, identity, answer);
      if fault.Some? {
        held := held - {name};
        return Err(fault.value);
      }
      if answer.DirectoryFails? {
        held := held - {name};
        return Err(DirectoryFailed);
      }
      return Ok(name);
    }
  }

  // ------------------------------------------------------------ histories

  ghost predicate Digest(digest: string -> string) {
    forall s :: AllBytes(digest(s))
  }

  /** One use: the state after it, and what an open answered. */
  function Used(digest: string -> string, s: State, use: Use): (State, Option<Result<string, Fault>>)
    requires Digest(digest)
  {
    match use
    case Open(id, lower, answer) =>
      var identity := OverlayIdentity(id, lower);
      var (after, r) := Opened(s, NameOf(digest, identity), identity, answer);
      (after, Some(r))
    case Close(name) => (s.(held := s.held - {name}), None)
  }

  function After(digest: string -> string, uses: seq<Use>): State
    requires Digest(digest)
  {
    if uses == [] then EMPTY else Used(digest, After(digest, uses[..|uses| - 1]), uses[|uses| - 1]).0
  }

  /** Use `k` of a history opened the workspace `name`. */
  predicate Opens(digest: string -> string, uses: seq<Use>, k: nat, name: string)
    requires Digest(digest)
  {
    k < |uses| && Used(digest, After(digest, uses[..k]), uses[k]).1 == Some(Ok(name))
  }

  /** Identity files are written once, and a lock goes only when it is closed. */
  lemma {:induction false} FilesStay(digest: string -> string, uses: seq<Use>, k: nat, name: string)
    requires Digest(digest) && k <= |uses| && name in After(digest, uses[..k]).identities
    ensures name in After(digest, uses).identities
    ensures After(digest, uses).identities[name] == After(digest, uses[..k]).identities[name]
    decreases |uses|
  {
    if k == |uses| {
      assert uses[..k] == uses;
    } else {
      var init := uses[..|uses| - 1];
      assert init[..k] == uses[..k];
      FilesStay(digest, init, k, name);
    }
  }

  lemma {:induction false} LocksStay(digest: string -> string, uses: seq<Use>, k: nat, name: string)
    requires Digest(digest) && k <= |uses| && name in After(digest, uses[..k]).held
    requires forall m :: k <= m < |uses| ==> uses[m] != Close(name)
    ensures name in After(digest, uses).held
    decreases |uses|
  {
    if k == |uses| {
      assert uses[..k] == uses;
    } else {
      var init := uses[..|uses| - 1];
      assert init[..k] == uses[..k];
      LocksStay(digest, init, k, name);
    }
  }

  /** A successful open holds the workspace, whose recorded identity is its own. */
  lemma OpenMeaning(digest: string -> string, uses: seq<Use>, k: nat, name: string)
    requires Digest(digest) && Opens(digest, uses, k, name)
    ensures uses[k].Open?
    ensures name !in After(digest, uses[..k]).held && name in After(digest, uses[..k + 1]).held
    ensures var files := After(digest, uses[..k + 1]).identities;
            name in files && files[name] == OverlayIdentity(uses[k].id, uses[k].lower)
  {
    assert uses[..k + 1][..k] == uses[..k];
  }

  /**
   Whatever the digest, however many identities it maps to one name: two opens
   of one workspace, in any history, were for the same id and lower directory,
   and the first was closed before the second.
   */
  lemma WorkspacesAreNeverShared(digest: string -> string, uses: seq<Use>, i: nat, j: nat, name: string)
    requires Digest(digest) && i < j && Opens(digest, uses, i, name) && Opens(digest, uses, j, name)
    requires Fit([uses[i].id, uses[i].lower]) && Fit([uses[j].id, uses[j].lower])
    ensures uses[i].id == uses[j].id && uses[i].lower == uses[j].lower
    ensures exists m :: i < m < j && uses[m] == Close(name)
  {
    OpenMeaning(digest, uses, i, name);
    OpenMeaning(digest, uses, j, name);
    var before, after := uses[..j], uses[..j + 1];
    assert before[..i + 1] == uses[..i + 1] && after[..i + 1] == uses[..i + 1];
    FilesStay(digest, after, i + 1, name);
    OverlayIdentityInjective(uses[i].id, uses[i].lower, uses[j].id, uses[j].lower);
    if forall m :: i < m < j ==> uses[m] != Close(name) {
      LocksStay(digest, before, i + 1, name);
    }
  }

  /**
   An identity opens its workspace again whenever the lock is free and its
   file can be read, whatever other identities were refused in between.
   */
  lemma OpensAgain(digest: string -> string, uses: seq<Use>, i: nat, j: nat, name: string)
    requires Digest(digest) && i < j < |uses| && Opens(digest, uses, i, name)
    requires uses[j].Open? && uses[j].id == uses[i].id && uses[j].lower == uses[i].lower
    requires uses[j].answer.Works? || uses[j].answer.WriteStops?
    ensures Opens(digest, uses, j, name) <==> name !in After(digest, uses[..j]).held
  {
    OpenMeaning(digest, uses, i, name);
    assert uses[..j][..i + 1] == uses[..i + 1];
    FilesStay(digest, uses[..j], i + 1, name);
  }

  // ------------------------------------------------ exactly when it opens

  /** The workspace a use asks for. */
  function Wanted(digest: string -> string, use: Use): string
    requires Digest(digest) && use.Open?
  {
    NameOf(digest, OverlayIdentity(use.id, use.lower))
  }

  /** Use `i` of a history created the identity file of the workspace `name`. */
  predicate Creates(digest: string -> string, uses: seq<Use>, i: nat, name: string)
    requires Digest(digest)
  {
    && i < |uses| && uses[i].Open? && Wanted(digest, uses[i]) == name
    && !uses[i].answer.Unavailable? && !uses[i].answer.CreateFails?
    && name !in After(digest, uses[..i]).held && name !in After(digest, uses[..i]).identities
  }

  /** What use `i` wrote, if it created the file. */
  function WrittenBy(use: Use): string
    requires use.Open?
  {
    Written(OverlayIdentity(use.id, use.lower), use.answer)
  }

  lemma CreatesWrites(digest: string -> string, uses: seq<Use>, i: nat, name: string)
    requires Digest(digest) && Creates(digest, uses, i, name)
    ensures name in After(digest, uses).identities && After(digest, uses).identities[name] == WrittenBy(uses[i])
  {
    assert uses[..i + 1][..i] == uses[..i];
    FilesStay(digest, uses, i + 1, name);
  }

  /** Every identity file has the use that created it. */
  lemma {:induction false} CreatorOf(digest: string -> string, uses: seq<Use>, name: string) returns (i: nat)
    requires Digest(digest) && name in After(digest, uses).identities
    ensures Creates(digest, uses, i, name)
    decreases |uses|
  {
    var init := uses[..|uses| - 1];
    if name in After(digest, init).identities {
      i := CreatorOf(digest, init, name);
      assert init[..i] == uses[..i];
    } else {
      i := |uses| - 1;
    }
  }

  /** A workspace is locked exactly if some use opened it and it was not closed since. */
  lemma {:induction false} LockedIff(digest: string -> string, uses: seq<Use>, name: string)
    requires Digest(digest)
    ensures name in After(digest, uses).held
            <==> exists i :: 0 <= i < |uses| && Opens(digest, uses, i, name)
                             && forall m :: i < m < |uses| ==> uses[m] != Close(name)
    decreases |uses|
  {
    forall i | 0 <= i < |uses| && Opens(digest, uses, i, name) && forall m :: i < m < |uses| ==> uses[m] != Close(name)
      ensures name in After(digest, uses).held
    {
      OpenMeaning(digest, uses, i, name);
      LocksStay(digest, uses, i + 1, name);
    }
    if name in After(digest, uses).held {
      var _ := OpenerOf(digest, uses, name);
    }
  }

  lemma {:induction false} OpenerOf(digest: string -> string, uses: seq<Use>, name: string) returns (i: nat)
    requires Digest(digest) && name in After(digest, uses).held
    ensures i < |uses| && Opens(digest, uses, i, name)
    ensures forall m :: i < m < |uses| ==> uses[m] != Close(name)
    decreases |uses|
  {
    var init := uses[..|uses| - 1];
    LastUse(digest, uses, name);
    hide Used, Opens;
    if name in After(digest, init).held {
      i := OpenerOf(digest, init, name);
      OpensBefore(digest, uses, i, name);
      assert forall m :: i < m < |init| ==> uses[m] == init[m];
    } else {
      i := |uses| - 1;
    }
  }

  /** A workspace locked after the last use was not closed by it, and was locked before or opened by it. */
  lemma LastUse(digest: string -> string, uses: seq<Use>, name: string)
    requires Digest(digest) && uses != [] && name in After(digest, uses).held
    ensures uses[|uses| - 1] != Close(name)
    ensures name in After(digest, uses[..|uses| - 1]).held || Opens(digest, uses, |uses| - 1, name)
  {
    hide Used;
    HeldAfter(digest, After(digest, uses[..|uses| - 1]), uses[|uses| - 1], name);
  }

  lemma HeldAfter(digest: string -> string, s: State, use: Use, name: string)
    requires Digest(digest) && name in Used(digest, s, use).0.held
    ensures use != Close(name) && (name in s.held || Used(digest, s, use).1 == Some(Ok(name)))
  {
    hide HexOf, OverlayIdentity, Ensured;
  }

  lemma OpensBefore(digest: string -> string, uses: seq<Use>, i: nat, name: string)
    requires Digest(digest) && uses != [] && i < |uses| - 1
    ensures Opens(digest, uses[..|uses| - 1], i, name) <==> Opens(digest, uses, i, name)
  {
    hide Used;
    assert uses[..|uses| - 1][..i] == uses[..i];
  }

  /**
   Exactly when a use opens its workspace, for any digest and any history: the
   workspace is not open, nothing on the way fails, and the identity file
   holds its own identity. If no earlier use created that file the write must
   not stop; if one did, it must be readable and what that use wrote, whole
   or cut short, must be this use's identity.
   */
  lemma OpensIff(digest: string -> string, uses: seq<Use>, j: nat)
    requires Digest(digest) && j < |uses| && uses[j].Open?
    ensures var name, answer := Wanted(digest, uses[j]), uses[j].answer;
            Opens(digest, uses, j, name) <==>
              && name !in After(digest, uses[..j]).held
              && !answer.Unavailable? && !answer.CreateFails? && !answer.DirectoryFails?
              && ((forall i :: 0 <= i < j ==> !Creates(digest, uses, i, name)) ==> !answer.WriteStops?)
              && (forall i :: 0 <= i < j && Creates(digest, uses, i, name) ==>
                    !answer.ReadFails? && WrittenBy(uses[i]) == OverlayIdentity(uses[j].id, uses[j].lower))
  {
    var name := Wanted(digest, uses[j]);
    var before := uses[..j];
    forall i | 0 <= i < j
      ensures Creates(digest, uses, i, name) <==> Creates(digest, before, i, name)
      ensures Creates(digest, before, i, name) ==>
                name in After(digest, before).identities
                && After(digest, before).identities[name] == WrittenBy(uses[i])
    {
      assert before[..i] == uses[..i];
      if Creates(digest, before, i, name) {
        CreatesWrites(digest, before, i, name);
      }
    }
    if name in After(digest, before).identities {
      var i := CreatorOf(digest, before, name);
      assert Creates(digest, uses, i, name);
    }
  }

  /** Exactly when a use is refused for its identity: a creating use wrote something else, and it can be read. */
  lemma MismatchIff(digest: string -> string, uses: seq<Use>, j: nat)
    requires Digest(digest) && j < |uses| && uses[j].Open?
    ensures var name, answer := Wanted(digest, uses[j]), uses[j].answer;
            Used(digest, After(digest, uses[..j]), uses[j]).1 == Some(Err(IdentityMismatch)) <==>
              && name !in After(digest, uses[..j]).held
              && !answer.Unavailable? && !answer.CreateFails? && !answer.ReadFails?
              && exists i :: 0 <= i < j && Creates(digest, uses, i, name)
                             && WrittenBy(uses[i]) != OverlayIdentity(uses[j].id, uses[j].lower)
  {
    var name := Wanted(digest, uses[j]);
    var before := uses[..j];
    forall i | 0 <= i < j
      ensures Creates(digest, uses, i, name) <==> Creates(digest, before, i, name)
      ensures Creates(digest, before, i, name) ==>
                name in After(digest, before).identities
                && After(digest, before).identities[name] == WrittenBy(uses[i])
    {
      assert before[..i] == uses[..i];
      if Creates(digest, before, i, name) {
        CreatesWrites(digest, before, i, name);
      }
    }
    if name in After(digest, before).identities {
      var i := CreatorOf(digest, before, name);
      assert Creates(digest, uses, i, name);
    }
  }

  /** Under a digest that collides, the later of two identities is shut out though its lock is free. */
  lemma CollisionShutsOut(digest: string -> string, id: string, lower: string, id': string, lower': string)
    requires Digest(digest)
    requires OverlayIdentity(id, lower) != OverlayIdentity(id', lower')
    requires digest(OverlayIdentity(id, lower)) == digest(OverlayIdentity(id', lower'))
    ensures var name := NameOf(digest, OverlayIdentity(id, lower));
            var uses := [Open(id, lower, Works), Close(name), Open(id', lower', Works)];
            && Opens(digest, uses, 0, name)
            && name !in After(digest, uses[..2]).held
            && Used(digest, After(digest, uses[..2]), uses[2]).1 == Some(Err(IdentityMismatch))
  {
    var name := NameOf(digest, OverlayIdentity(id, lower));
    var uses := [Open(id, lower, Works), Close(name), Open(id', lower', Works)];
    assert uses[..0] == [] && uses[..2][..1] == uses[..1] && uses[..1][..0] == [];
    assert uses[..2][1] == Close(name) && uses[..1][0] == uses[0];
  }

  /**
   A first write that stops short leaves a workspace that its own identity can
   never open: every later attempt meets a different recorded identity.
   */
  lemma InterruptedWriteIsFinal(digest: string -> string, uses: seq<Use>, i: nat, j: nat)
    requires Digest(digest) && i < j < |uses| && uses[i].Open? && uses[j].Open?
    requires uses[j].id == uses[i].id && uses[j].lower == uses[i].lower
    requires Used(digest, After(digest, uses[..i]), uses[i]).1 == Some(Err(WriteFailed))
    requires uses[i].answer.written < |OverlayIdentity(uses[i].id, uses[i].lower)|
    ensures !Opens(digest, uses, j, NameOf(digest, OverlayIdentity(uses[j].id, uses[j].lower)))
  {
    var identity := OverlayIdentity(uses[i].id, uses[i].lower);
    var name := NameOf(digest, identity);
    assert uses[..i + 1][..i] == uses[..i];
    var files := After(digest, uses[..i + 1]).identities;
    assert name in files && |files[name]| < |identity|;
    if Opens(digest, uses, j, name) {
      OpenMeaning(digest, uses, j, name);
      assert uses[..j + 1][..i + 1] == uses[..i + 1];
      FilesStay(digest, uses[..j + 1], i + 1, name);
    }
  }
}
