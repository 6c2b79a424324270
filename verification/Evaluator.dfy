/** The permission evaluator (`pkg/authz/evaluator.go`): owner bypass, then class bits at the
    enclave layer and again at the tentacle layer. */
module Evaluator {
  import opened Wrappers
  import opened Text
  import opened Annotations
  import opened Caller
  import EA = EnclaveAnnotations
  import M = Mode

  datatype Reason = Fine | NoIdentity | NotAnEnclave | Lacks(c: M.Class, a: M.Action)

  datatype Decision = Decision(allowed: bool, reason: Reason)

  /** A nil evaluator is `None`; `enabled` is the kill switch. */
  datatype Evaluator = Evaluator(enabled: bool)

  const ALLOW := Decision(true, Fine)

  /** Member-edit, rwxrwx---. */
  const DEFAULT_ENCLAVE_MODE: M.Mode := {8, 7, 6, 5, 4, 3}

  function ModeOf(ann: Annotations): M.Mode {
    var raw := Get(ann, PermissionMode);
    if raw != "" && M.Parse(raw).Some? then M.Parse(raw).value else DEFAULT_ENCLAVE_MODE
  }

  function CheckBits(mode: M.Mode, c: M.Class, a: M.Action): Decision {
    if M.Grants(mode, c, a) then ALLOW else Decision(false, Lacks(c, a))
  }

  predicate IsOwnerOf(email: string, owner: string) {
    owner != "" && ToLower(email) == ToLower(owner)
  }

  predicate IsMember(email: string, enclaveAnn: Annotations) {
    ToLower(email) in EA.Members(Get(enclaveAnn, EnclaveMembers))
  }

  predicate Disabled(e: Option<Evaluator>) {
    e.None? || !e.value.enabled
  }

  /** The class of a caller at the enclave layer, the owner aside. */
  function EnclaveClass(email: string, enclaveAnn: Annotations): M.Class {
    if IsMember(email, enclaveAnn) then M.Group else M.Other
  }

  /** The class of a caller at the tentacle layer. */
  function TentacleClass(email: string, enclaveAnn: Annotations, tentacleAnn: Annotations): M.Class {
    if IsOwnerOf(email, Get(tentacleAnn, Owner)) then M.Owner else EnclaveClass(email, enclaveAnn)
  }

  function EnclaveDecision(e: Option<Evaluator>, d: Option<Deployer>, enclaveAnn: Annotations, a: M.Action): Decision {
    if Disabled(e) then ALLOW
    else if d.None? then Decision(false, NoIdentity)
    else if d.value.provider == "bearer-token" then ALLOW
    else if Get(enclaveAnn, Enclave) == "" then Decision(false, NotAnEnclave)
    else if IsOwnerOf(d.value.email, Get(enclaveAnn, EnclaveOwner)) then ALLOW
    else CheckBits(ModeOf(enclaveAnn), if IsMember(d.value.email, enclaveAnn) then M.Group else M.Other, a)
  }

  function TentacleDecision(e: Option<Evaluator>, d: Option<Deployer>, enclaveAnn: Annotations,
      tentacleAnn: Annotations, a: M.Action)
    : Decision
  {
    if Disabled(e) then ALLOW
    else if d.None? then Decision(false, NoIdentity)
    else if d.value.provider == "bearer-token" then ALLOW
    else if IsOwnerOf(d.value.email, Get(enclaveAnn, EnclaveOwner)) then ALLOW
    else
      var layer1 := EnclaveDecision(e, d, enclaveAnn, a);
      if !layer1.allowed then layer1
      else CheckBits(ModeOf(tentacleAnn), TentacleClass(d.value.email, enclaveAnn, tentacleAnn), a)
  }

  // ----- the methods -----

  method ResolveMode(ann: Annotations) returns (mode: M.Mode)
    ensures mode == ModeOf(ann)
  {
    mode := DEFAULT_ENCLAVE_MODE;
    var raw := Get(ann, PermissionMode);
    if raw != "" {
      var m := M.ParseMode(raw);
      if m.Some? {
        mode := m.value;
      }
    }
  }

  method FindMember(enclaveAnn: Annotations, email: string) returns (found: bool)
    ensures found <==> email in EA.Members(Get(enclaveAnn, EnclaveMembers))
  {
    var members := EA.ParseMembers(Get(enclaveAnn, EnclaveMembers));
    hide EA.Members;
    for i := 0 to |members|
      invariant forall j :: 0 <= j < i ==> members[j] != email
    {
      if members[i] == email {
        return true;
      }
    }
    return false;
  }

  /** `CheckEnclave`. */
  method CheckEnclave(e: Option<Evaluator>, d: Option<Deployer>, enclaveAnn: Annotations, a: M.Action)
      returns (r: Decision)
    ensures r == EnclaveDecision(e, d, enclaveAnn, a)
  {
    hide EA.Members, M.Parse;
    if e.None? || !e.value.enabled {
      return ALLOW;
    }
    if d.None? {
      return Decision(false, NoIdentity);
    }
    if d.value.provider == "bearer-token" {
      return ALLOW;
    }
    if Get(enclaveAnn, Enclave) == "" {
      return Decision(false, NotAnEnclave);
    }
    var mode := ResolveMode(enclaveAnn);
    var deployerEmail := ToLower(d.value.email);
    var enclaveOwner := ToLower(Get(enclaveAnn, EnclaveOwner));
    LowerEmpty(Get(enclaveAnn, EnclaveOwner));
    if enclaveOwner != "" && deployerEmail == enclaveOwner {
      return ALLOW;
    }
    var member := FindMember(enclaveAnn, deployerEmail);
    if member {
      return CheckBits(mode, M.Group, a);
    }
    return CheckBits(mode, M.Other, a);
  }

  /** `CheckTentacle`: the owner bypass comes before the test that the namespace is an enclave. */
  method CheckTentacle(e: Option<Evaluator>, d: Option<Deployer>, enclaveAnn: Annotations, tentacleAnn: Annotations,
      a: M.Action)
    returns (r: Decision)
    ensures r == TentacleDecision(e, d, enclaveAnn, tentacleAnn, a)
  {
    hide EA.Members, M.Parse;
    if e.None? || !e.value.enabled {
      return ALLOW;
    }
    if d.None? {
      return Decision(false, NoIdentity);
    }
    if d.value.provider == "bearer-token" {
      return ALLOW;
    }
    var deployerEmail := ToLower(d.value.email);
    LowerEmpty(Get(enclaveAnn, EnclaveOwner));
    LowerEmpty(Get(tentacleAnn, Owner));
    var enclaveOwner := ToLower(Get(enclaveAnn, EnclaveOwner));
    if enclaveOwner != "" && deployerEmail == enclaveOwner {
      return ALLOW;
    }
    var layer1 := CheckEnclave(e, d, enclaveAnn, a);
    if !layer1.allowed {
      return layer1;
    }
    var mode := ResolveMode(tentacleAnn);
    var tentacleOwner := ToLower(Get(tentacleAnn, Owner));
    if tentacleOwner != "" && deployerEmail == tentacleOwner {
      return CheckBits(mode, M.Owner, a);
    }
    var member := FindMember(enclaveAnn, deployerEmail);
    if member {
      return CheckBits(mode, M.Group, a);
    }
    return CheckBits(mode, M.Other, a);
  }

  // ----- what the decisions mean -----

  predicate Oidc(e: Option<Evaluator>, d: Option<Deployer>) {
    !Disabled(e) && IsOidc(d)
  }

  /** On an enclave, an OIDC caller may act on a tentacle exactly when the caller owns the
      enclave, or the bits of the caller's class allow it at both layers. Where neither mode can be
      read, these are the owner and the members, at either layer. */
  lemma TentacleIff(e: Option<Evaluator>, d: Option<Deployer>, enclaveAnn: Annotations, tentacleAnn: Annotations,
      a: M.Action)
    requires Oidc(e, d) && EA.IsEnclave(enclaveAnn)
    ensures TentacleDecision(e, d, enclaveAnn, tentacleAnn, a).allowed <==>
            IsOwnerOf(d.value.email, Get(enclaveAnn, EnclaveOwner)) ||
            (M.Grants(ModeOf(enclaveAnn), EnclaveClass(d.value.email, enclaveAnn), a) &&
             M.Grants(ModeOf(tentacleAnn), TentacleClass(d.value.email, enclaveAnn, tentacleAnn), a))
    ensures Unreadable(enclaveAnn) ==>
              (EnclaveDecision(e, d, enclaveAnn, a).allowed <==>
               IsOwnerOf(d.value.email, Get(enclaveAnn, EnclaveOwner)) || IsMember(d.value.email, enclaveAnn))
    ensures Unreadable(enclaveAnn) && Unreadable(tentacleAnn) ==>
              (TentacleDecision(e, d, enclaveAnn, tentacleAnn, a).allowed <==>
               IsOwnerOf(d.value.email, Get(enclaveAnn, EnclaveOwner)) || IsMember(d.value.email, enclaveAnn))
  {
    hide EA.Members, M.Parse, ToLower, IsMember, IsOwnerOf;
    DefaultGrants(a);
    if Unreadable(enclaveAnn) { assert ModeOf(enclaveAnn) == DEFAULT_ENCLAVE_MODE; }
    if Unreadable(tentacleAnn) { assert ModeOf(tentacleAnn) == DEFAULT_ENCLAVE_MODE; }
  }

  /** No mode, or one that does not parse. */
  predicate Unreadable(ann: Annotations) {
    M.Parse(Get(ann, PermissionMode)).None?
  }

  lemma DefaultGrants(a: M.Action)
    ensures M.Grants(DEFAULT_ENCLAVE_MODE, M.Owner, a) && M.Grants(DEFAULT_ENCLAVE_MODE, M.Group, a)
    ensures !M.Grants(DEFAULT_ENCLAVE_MODE, M.Other, a)
  {
  }

  /** The cases decided without a look at modes: an evaluator that is missing or switched off, and a
      platform operator, are never in the way; without an identity nothing is allowed; and outside
      an enclave an OIDC caller is denied at the enclave layer. */
  lemma ClosedCases(e: Option<Evaluator>, d: Option<Deployer>, x: Annotations, t: Annotations, a: M.Action)
    ensures e == None || e == Some(Evaluator(false)) ==>
              EnclaveDecision(e, d, x, a) == Decision(true, Fine) &&
                  TentacleDecision(e, d, x, t, a) == Decision(true, Fine)
    ensures d.Some? && d.value.provider == "bearer-token" ==>
              EnclaveDecision(e, d, x, a) == Decision(true, Fine) &&
                  TentacleDecision(e, d, x, t, a) == Decision(true, Fine)
    ensures e == Some(Evaluator(true)) && d == None ==>
              EnclaveDecision(e, d, x, a) == Decision(false, NoIdentity) &&
              TentacleDecision(e, d, x, t, a) == Decision(false, NoIdentity)
    ensures e == Some(Evaluator(true)) && d.Some? && d.value.provider != "bearer-token" && Get(x, Enclave) == "" ==>
              && EnclaveDecision(e, d, x, a) == Decision(false, NotAnEnclave)
              && TentacleDecision(e, d, x, t, a) ==
                 if Get(x, EnclaveOwner) != "" && ToLower(d.value.email) == ToLower(Get(x, EnclaveOwner))
                 then Decision(true, Fine) else Decision(false, NotAnEnclave)
  {
    hide EA.Members, M.Parse, ToLower;
  }

  /** The place of a class and an action in a permission string, and the letter that grants it. */
  predicate LetterGrants(s: string, c: M.Class, a: M.Action)
    requires |s| == 9
  {
    s[(match c case Owner => 0 case Group => 3 case Other => 6) +
        (match a case Read => 0 case Write => 1 case Execute => 2)]
    == (match a case Read => 'r' case Write => 'w' case Execute => 'x')
  }

  lemma LettersDecide(ann: Annotations, c: M.Class, a: M.Action)
    requires M.IsRwx(Get(ann, PermissionMode))
    ensures |Get(ann, PermissionMode)| == 9
    ensures M.Grants(ModeOf(ann), c, a) <==> LetterGrants(Get(ann, PermissionMode), c, a)
  {
    M.GrantsReadString(Get(ann, PermissionMode), c, a);
    assert ModeOf(ann) == M.Parse(Get(ann, PermissionMode)).value;
  }

  /** Down to the letters: with a readable mode, an OIDC caller is allowed on an enclave exactly as
      its owner, or by the letter of the group for members and of the others for anyone else; and
      who is denied is told the class and the action. */
  lemma EnclaveIff(e: Option<Evaluator>, d: Option<Deployer>, x: Annotations, a: M.Action)
    requires e == Some(Evaluator(true)) && d.Some? && d.value.provider != "bearer-token" && Get(x, Enclave) != ""
    requires M.IsRwx(Get(x, PermissionMode))
    ensures |Get(x, PermissionMode)| == 9
    ensures var owner := Get(x, EnclaveOwner) != "" && ToLower(d.value.email) == ToLower(Get(x, EnclaveOwner));
            var c := if ToLower(d.value.email) in EA.Members(Get(x, EnclaveMembers)) then M.Group else M.Other;
            EnclaveDecision(e, d, x, a) ==
            if owner || LetterGrants(Get(x, PermissionMode), c, a) then Decision(true, Fine)
            else Decision(false, Lacks(c, a))
  {
    hide EA.Members, ToLower, ModeOf, LetterGrants, M.Grants;
    LettersDecide(x, M.Group, a);
    LettersDecide(x, M.Other, a);
  }

  /** The same for a tentacle: past the enclave layer, the letters of the tentacle decide for its
      owner, for members of the enclave, and for anyone else. */
  lemma TentacleLetters(e: Option<Evaluator>, d: Option<Deployer>, x: Annotations, t: Annotations, a: M.Action)
    requires e == Some(Evaluator(true)) && d.Some? && d.value.provider != "bearer-token" && Get(x, Enclave) != ""
    requires M.IsRwx(Get(x, PermissionMode)) && M.IsRwx(Get(t, PermissionMode))
    ensures |Get(t, PermissionMode)| == 9
    ensures var email := ToLower(d.value.email);
            var member := email in EA.Members(Get(x, EnclaveMembers));
            var c := if Get(t, Owner) != "" && email == ToLower(Get(t, Owner)) then M.Owner
                     else if member then M.Group else M.Other;
            TentacleDecision(e, d, x, t, a) ==
            if Get(x, EnclaveOwner) != "" && email == ToLower(Get(x, EnclaveOwner)) then Decision(true, Fine)
            else if !EnclaveDecision(e, d, x, a).allowed then EnclaveDecision(e, d, x, a)
            else if LetterGrants(Get(t, PermissionMode), c, a) then Decision(true, Fine)
            else Decision(false, Lacks(c, a))
  {
    hide EA.Members, ToLower, ModeOf, LetterGrants, M.Grants, EnclaveDecision;
    LettersDecide(t, M.Owner, a);
    LettersDecide(t, M.Group, a);
    LettersDecide(t, M.Other, a);
  }

  /** The tentacle layer never allows what the enclave layer denies, exactly when the namespace
      is an enclave or its annotations name no owner equal to the caller. */
  lemma TentacleImpliesEnclave(e: Option<Evaluator>, d: Option<Deployer>, enclaveAnn: Annotations, a: M.Action)
    requires Oidc(e, d)
    ensures (forall t: Annotations ::
               TentacleDecision(e, d, enclaveAnn, t, a).allowed ==> EnclaveDecision(e, d, enclaveAnn, a).allowed) <==>
            EA.IsEnclave(enclaveAnn) || !IsOwnerOf(d.value.email, Get(enclaveAnn, EnclaveOwner))
  {
    hide EA.Members, M.Parse, ToLower;
    var none: Annotations := map[];
    var isOwner := IsOwnerOf(d.value.email, Get(enclaveAnn, EnclaveOwner));
    assert isOwner ==> TentacleDecision(e, d, enclaveAnn, none, a).allowed;
  }

  function AsSet(ms: seq<string>): set<string> {
    set m | m in ms
  }

  /** Two enclave annotations that differ at most in the letter case of the owner and in how
      the same set of members is written. */
  predicate SameUpToSpelling(x: Annotations, y: Annotations) {
    && Get(x, Enclave) == Get(y, Enclave)
    && Get(x, PermissionMode) == Get(y, PermissionMode)
    && ToLower(Get(x, EnclaveOwner)) == ToLower(Get(y, EnclaveOwner))
    && AsSet(EA.Members(Get(x, EnclaveMembers))) == AsSet(EA.Members(Get(y, EnclaveMembers)))
  }

  /** Decisions depend on e-mails only up to letter case, and on the member list only as a set. */
  lemma SpellingDoesNotMatter(
      e: Option<Evaluator>, d1: Deployer, d2: Deployer, x: Annotations, y: Annotations,
      s: Annotations, t: Annotations, a: M.Action)
    requires d1.provider == d2.provider && ToLower(d1.email) == ToLower(d2.email)
    requires SameUpToSpelling(x, y)
    requires Get(s, PermissionMode) == Get(t, PermissionMode) && ToLower(Get(s, Owner)) == ToLower(Get(t, Owner))
    ensures EnclaveDecision(e, Some(d1), x, a) == EnclaveDecision(e, Some(d2), y, a)
    ensures TentacleDecision(e, Some(d1), x, s, a) == TentacleDecision(e, Some(d2), y, t, a)
  {
    hide IsOwnerOf, IsMember, ModeOf, CheckBits, AsSet, ToLower, EA.Members, Get;
    OwnerSpelling(d1.email, d2.email, Get(x, EnclaveOwner), Get(y, EnclaveOwner));
    OwnerSpelling(d1.email, d2.email, Get(s, Owner), Get(t, Owner));
    MembersAsSet(x, y, d1.email, d2.email);
    ModeSpelling(x, y);
    ModeSpelling(s, t);
  }

  lemma OwnerSpelling(e1: string, e2: string, o1: string, o2: string)
    requires ToLower(e1) == ToLower(e2) && ToLower(o1) == ToLower(o2)
    ensures IsOwnerOf(e1, o1) == IsOwnerOf(e2, o2)
  {
    LowerEmpty(o1);
    LowerEmpty(o2);
    hide ToLower;
  }

  lemma ModeSpelling(x: Annotations, y: Annotations)
    requires Get(x, PermissionMode) == Get(y, PermissionMode)
    ensures ModeOf(x) == ModeOf(y)
  {
    hide M.Parse;
  }

  lemma MembersAsSet(x: Annotations, y: Annotations, e1: string, e2: string)
    requires ToLower(e1) == ToLower(e2)
    requires AsSet(EA.Members(Get(x, EnclaveMembers))) == AsSet(EA.Members(Get(y, EnclaveMembers)))
    ensures IsMember(e1, x) == IsMember(e2, y)
  {
    InSet(EA.Members(Get(x, EnclaveMembers)), ToLower(e1));
    InSet(EA.Members(Get(y, EnclaveMembers)), ToLower(e1));
    hide EA.Members, ToLower, AsSet;
  }

  lemma InSet(ms: seq<string>, m: string)
    ensures m in AsSet(ms) <==> m in ms
  {
  }

  /** Rewriting the member text by parsing and formatting it changes no decision. */
  lemma NormalFormDecides(e: Option<Evaluator>, d: Option<Deployer>, x: Annotations, t: Annotations, a: M.Action)
    ensures var y := x[EnclaveMembers := EA.FormatMembers(EA.Members(Get(x, EnclaveMembers)))];
            TentacleDecision(e, d, x, t, a) == TentacleDecision(e, d, y, t, a)
  {
    EA.MembersNormalForm(Get(x, EnclaveMembers));
    hide EA.Members, EA.FormatMembers, M.Parse, ToLower, M.Grants;
  }
}
