/**
 * What masking hides and what unmasking puts back (config/config.go:924-1172), told field by field: which values of the
 * result are stars, which are those of the input, and where the others come from.
 */
module MaskingSecrets {
  import opened Common
  import opened Masking

  // ----- masking ------------------------------------------------------------------------------------

  /** An empty password stays empty and every other one becomes sixteen stars. */
  function Stars(pass: string): string {
    if pass == "" then "" else "****************"
  }

  /** The name of a parameter is one of the four secret ones, in upper or lower case. */
  predicate SecretName(name: string) {
    || EqualFold(name, "aws_secret_access_key") || EqualFold(name, "private_key")
    || EqualFold(name, "password") || EqualFold(name, "pass")
  }

  /** Folding makes two letters of the alphabet one and leaves everything else that ASCII has apart. */
  lemma FoldsCase(a: char, b: char)
    requires a < 128 as char && b < 128 as char
    ensures FoldChar(a) == FoldChar(b) <==>
            a == b || ('A' <= a <= 'Z' && a as int + 32 == b as int) || ('A' <= b <= 'Z' && b as int + 32 == a as int)
  {}

  function Folded(s: string): string {
    seq(|s|, i requires 0 <= i < |s| => FoldChar(s[i]))
  }

  /** Names are compared whole, and by nothing but their folded characters. */
  lemma FoldsWhole(a: string, b: string)
    ensures EqualFold(a, b) <==> Folded(a) == Folded(b)
  {
    if Folded(a) == Folded(b) {
      assert |a| == |Folded(a)| == |Folded(b)| == |b|;
      forall i | 0 <= i < |a| ensures FoldChar(a[i]) == FoldChar(b[i]) {
        assert Folded(a)[i] == Folded(b)[i];
      }
    }
  }

  /** A value counts as masked exactly if it is not empty and all of it is stars. */
  lemma StarsOnly(s: string)
    ensures IsStars(s) <==> s != "" && s == seq(|s|, _ => '*')
  {
    var stars := seq(|s|, _ => '*');
    if s == stars {
      forall i | 0 <= i < |s| ensures s[i] == '*' {
        assert stars[i] == '*';
      }
    }
  }

  lemma SecretNames(name: string)
    ensures IsSecret(name) <==> SecretName(name)
  {
    var names := SECRET_PARAMETERS;
    assert names[0] == "aws_secret_access_key" && names[1] == "private_key" && names[2] == "password" && names[3] == "pass";
    assert SecretName(name) ==> exists i | 0 <= i < |names| :: EqualFold(name, names[i]);
  }

  ghost predicate HidesParams(ps: seq<Param>, masked: seq<Param>) {
    && |masked| == |ps|
    && forall k | 0 <= k < |ps| ::
         masked[k] == Param(ps[k].name, if SecretName(ps[k].name) then "****************" else ps[k].value)
  }

  ghost predicate HidesTargets(ts: seq<Target>, masked: seq<Target>) {
    && |masked| == |ts|
    && forall j | 0 <= j < |ts| ::
         && HidesParams(ts[j].params, masked[j].params)
         && masked[j] == Target(ts[j].name, ts[j].kind, ts[j].rest, masked[j].params)
  }

  ghost predicate HidesDefinition(d: Definition, masked: Definition) {
    && HidesTargets(d.targets, masked.targets)
    && masked == Definition(d.name, Stars(d.encryptPass), d.rest, masked.targets)
  }

  lemma ParamsAreHidden(ps: seq<Param>)
    ensures HidesParams(ps, MaskParams(ps))
  {
    forall k | 0 <= k < |ps| ensures IsSecret(ps[k].name) <==> SecretName(ps[k].name) {
      SecretNames(ps[k].name);
    }
  }

  lemma DefinitionIsHidden(d: Definition)
    ensures HidesDefinition(d, MaskDefinition(d))
  {
    forall j | 0 <= j < |d.targets| ensures HidesParams(d.targets[j].params, MaskTargets(d.targets)[j].params) {
      ParamsAreHidden(d.targets[j].params);
    }
  }

  /**
   * No secret is left in a masked configuration: the password of every user and email and every encryption password is
   * empty if it was, and stars otherwise; every secret parameter of every target is stars; every other field is as it was.
   */
  lemma MaskHides(c: Cfg)
    ensures var m := Mask(c);
            && |m.users| == |c.users| && |m.backups| == |c.backups| && |m.emails| == |c.emails| && m.rest == c.rest
            && (forall i | 0 <= i < |c.users| :: m.users[i] == User(c.users[i].name, Stars(c.users[i].pass), c.users[i].rest))
            && (forall i | 0 <= i < |c.backups| :: HidesDefinition(c.backups[i], m.backups[i]))
            && (forall i | 0 <= i < |c.emails| ::
                  m.emails[i] == Email(c.emails[i].server, c.emails[i].user, Stars(c.emails[i].pass), c.emails[i].rest))
  {
    forall i | 0 <= i < |c.backups| ensures HidesDefinition(c.backups[i], Mask(c).backups[i]) {
      DefinitionIsHidden(c.backups[i]);
    }
  }

  // ----- unmasking ----------------------------------------------------------------------------------

  /** The first entry of a list with the given key is at `k`. */
  ghost predicate UserAt(us: seq<User>, name: string, k: int) {
    0 <= k < |us| && us[k].name == name && forall i | 0 <= i < k :: !(us[i].name == name)
  }

  ghost predicate EmailAt(es: seq<Email>, server: string, user: string, k: int) {
    0 <= k < |es| && es[k].server == server && es[k].user == user && forall i | 0 <= i < k :: !(es[i].server == server && es[i].user == user)
  }

  ghost predicate DefinitionAt(ds: seq<Definition>, name: string, k: int) {
    0 <= k < |ds| && ds[k].name == name && forall i | 0 <= i < k :: !(ds[i].name == name)
  }

  ghost predicate TargetAt(ts: seq<Target>, name: string, kind: string, k: int) {
    0 <= k < |ts| && ts[k].name == name && ts[k].kind == kind && forall i | 0 <= i < k :: !(ts[i].name == name && ts[i].kind == kind)
  }

  ghost predicate ParamAt(ps: seq<Param>, name: string, k: int) {
    0 <= k < |ps| && EqualFold(ps[k].name, name) && forall i | 0 <= i < k :: !(EqualFold(ps[i].name, name))
  }

  lemma {:induction false} FirstUserAt(us: seq<User>, name: string)
    ensures if FirstUser(us, name).None? then forall k :: !UserAt(us, name, k) else exists k :: UserAt(us, name, k) && us[k] == FirstUser(us, name).value
  {
    if |us| > 0 {
      if us[0].name == name {
        assert UserAt(us, name, 0);
      } else {
        FirstUserAt(us[1..], name);
        if FirstUser(us, name).Some? {
          var k :| UserAt(us[1..], name, k) && us[1..][k] == FirstUser(us, name).value;
          assert UserAt(us, name, k + 1);
        } else {
          forall k | UserAt(us, name, k) ensures false {
            assert UserAt(us[1..], name, k - 1);
          }
        }
      }
    }
  }

  lemma {:induction false} FirstEmailAt(es: seq<Email>, server: string, user: string)
    ensures if FirstEmail(es, server, user).None? then forall k :: !EmailAt(es, server, user, k)
            else exists k :: EmailAt(es, server, user, k) && es[k] == FirstEmail(es, server, user).value
  {
    if |es| > 0 {
      if es[0].server == server && es[0].user == user {
        assert EmailAt(es, server, user, 0);
      } else {
        FirstEmailAt(es[1..], server, user);
        if FirstEmail(es, server, user).Some? {
          var k :| EmailAt(es[1..], server, user, k) && es[1..][k] == FirstEmail(es, server, user).value;
          assert EmailAt(es, server, user, k + 1);
        } else {
          forall k | EmailAt(es, server, user, k) ensures false {
            assert EmailAt(es[1..], server, user, k - 1);
          }
        }
      }
    }
  }

  lemma {:induction false} FirstDefinitionAt(ds: seq<Definition>, name: string)
    ensures if FirstDefinition(ds, name).None? then forall k :: !DefinitionAt(ds, name, k)
            else exists k :: DefinitionAt(ds, name, k) && ds[k] == FirstDefinition(ds, name).value
  {
    if |ds| > 0 {
      if ds[0].name == name {
        assert DefinitionAt(ds, name, 0);
      } else {
        FirstDefinitionAt(ds[1..], name);
        if FirstDefinition(ds, name).Some? {
          var k :| DefinitionAt(ds[1..], name, k) && ds[1..][k] == FirstDefinition(ds, name).value;
          assert DefinitionAt(ds, name, k + 1);
        } else {
          forall k | DefinitionAt(ds, name, k) ensures false {
            assert DefinitionAt(ds[1..], name, k - 1);
          }
        }
      }
    }
  }

  lemma {:induction false} FirstTargetAt(ts: seq<Target>, name: string, kind: string)
    ensures if FirstTarget(ts, name, kind).None? then forall k :: !TargetAt(ts, name, kind, k)
            else exists k :: TargetAt(ts, name, kind, k) && ts[k] == FirstTarget(ts, name, kind).value
  {
    if |ts| > 0 {
      if ts[0].name == name && ts[0].kind == kind {
        assert TargetAt(ts, name, kind, 0);
      } else {
        FirstTargetAt(ts[1..], name, kind);
        if FirstTarget(ts, name, kind).Some? {
          var k :| TargetAt(ts[1..], name, kind, k) && ts[1..][k] == FirstTarget(ts, name, kind).value;
          assert TargetAt(ts, name, kind, k + 1);
        } else {
          forall k | TargetAt(ts, name, kind, k) ensures false {
            assert TargetAt(ts[1..], name, kind, k - 1);
          }
        }
      }
    }
  }

  lemma {:induction false} FirstParamAt(ps: seq<Param>, name: string)
    ensures if FirstParam(ps, name).None? then forall k :: !ParamAt(ps, name, k) else exists k :: ParamAt(ps, name, k) && ps[k] == FirstParam(ps, name).value
  {
    if |ps| > 0 {
      if EqualFold(ps[0].name, name) {
        assert ParamAt(ps, name, 0);
      } else {
        FirstParamAt(ps[1..], name);
        if FirstParam(ps, name).Some? {
          var k :| ParamAt(ps[1..], name, k) && ps[1..][k] == FirstParam(ps, name).value;
          assert ParamAt(ps, name, k + 1);
        } else {
          forall k | ParamAt(ps, name, k) ensures false {
            assert ParamAt(ps[1..], name, k - 1);
          }
        }
      }
    }
  }

  /**
   * A user is taken as it was sent unless its password is stars; then it gets the password of the first old user of its
   * name, and without one the copy fails.
   */
  lemma UserIsPutBack(u: User, was: seq<User>)
    ensures var r := UnmaskUser(u, was);
            if !IsStars(u.pass) then r == Ok(u)
            else if r.Err? then forall k :: !UserAt(was, u.name, k)
            else exists k :: UserAt(was, u.name, k) && r.value == User(u.name, was[k].pass, u.rest)
  {
    FirstUserAt(was, u.name);
  }

  /** The same for an email, by server and user. */
  lemma EmailIsPutBack(e: Email, was: seq<Email>)
    ensures var r := UnmaskEmail(e, was);
            if !IsStars(e.pass) then r == Ok(e)
            else if r.Err? then forall k :: !EmailAt(was, e.server, e.user, k)
            else exists k :: EmailAt(was, e.server, e.user, k) && r.value == Email(e.server, e.user, was[k].pass, e.rest)
  {
    FirstEmailAt(was, e.server, e.user);
  }

  /** The same for an encryption password, by backup; one that was empty cannot be put back. */
  lemma PassIsPutBack(d: Definition, was: seq<Definition>)
    ensures var r := UnmaskPass(d, was);
            if !IsStars(d.encryptPass) then r == Ok(d.encryptPass)
            else if r.Err? then forall k :: DefinitionAt(was, d.name, k) ==> was[k].encryptPass == ""
            else exists k :: DefinitionAt(was, d.name, k) && r.value == was[k].encryptPass != ""
  {
    FirstDefinitionAt(was, d.name);
  }

  /** The counterpart of a parameter: the first of its name in the first target of the first backup of theirs. */
  ghost predicate Counterpart(was: seq<Definition>, backup: string, target: string, kind: string, name: string, i: int, j: int, k: int) {
    && DefinitionAt(was, backup, i) && TargetAt(was[i].targets, target, kind, j) && ParamAt(was[i].targets[j].params, name, k)
  }

  lemma {:induction false} CounterpartIs(was: seq<Definition>, backup: string, target: string, kind: string, name: string, i: int, j: int, k: int)
    requires Counterpart(was, backup, target, kind, name, i, j, k)
    ensures FirstDefinition(was, backup) == Some(was[i])
    ensures FirstTarget(was[i].targets, target, kind) == Some(was[i].targets[j])
    ensures FirstParam(was[i].targets[j].params, name) == Some(was[i].targets[j].params[k])
  {
    FirstDefinitionAt(was, backup);
    FirstTargetAt(was[i].targets, target, kind);
    FirstParamAt(was[i].targets[j].params, name);
  }

  /**
   * A parameter is taken as it was sent unless it is a secret and its value is stars; then it gets the value of its
   * counterpart, and without one, or with an empty one, the copy fails.
   */
  lemma ParamIsPutBack(p: Param, backup: string, target: string, kind: string, was: seq<Definition>)
    ensures var r := UnmaskParam(p, backup, target, kind, was);
            if !SecretName(p.name) || !IsStars(p.value) then r == Ok(p)
            else if r.Err? then
              forall i, j, k :: Counterpart(was, backup, target, kind, p.name, i, j, k) ==> was[i].targets[j].params[k].value == ""
            else
              exists i, j, k :: && Counterpart(was, backup, target, kind, p.name, i, j, k)
                                && r.value == Param(p.name, was[i].targets[j].params[k].value) && r.value.value != ""
  {
    SecretNames(p.name);
    var r := UnmaskParam(p, backup, target, kind, was);
    if SecretName(p.name) && IsStars(p.value) {
      if r.Err? {
        forall i, j, k | Counterpart(was, backup, target, kind, p.name, i, j, k) ensures was[i].targets[j].params[k].value == "" {
          CounterpartIs(was, backup, target, kind, p.name, i, j, k);
        }
      } else {
        FirstDefinitionAt(was, backup);
        var i :| DefinitionAt(was, backup, i) && was[i] == FirstDefinition(was, backup).value;
        FirstTargetAt(was[i].targets, target, kind);
        var j :| TargetAt(was[i].targets, target, kind, j) && was[i].targets[j] == FirstTarget(was[i].targets, target, kind).value;
        FirstParamAt(was[i].targets[j].params, p.name);
        var k :| ParamAt(was[i].targets[j].params, p.name, k) && was[i].targets[j].params[k] == FirstParam(was[i].targets[j].params, p.name).value;
        assert Counterpart(was, backup, target, kind, p.name, i, j, k);
      }
    }
  }

  // ----- the whole configuration ----------------------------------------------------------------------

  ghost predicate ParamsPutBack(t: Target, t': Target, backup: string, was: seq<Definition>) {
    && t' == t.(params := t'.params) && |t'.params| == |t.params|
    && forall k | 0 <= k < |t.params| :: UnmaskParam(t.params[k], backup, t.name, t.kind, was) == Ok(t'.params[k])
  }

  ghost predicate DefinitionPutBack(d: Definition, d': Definition, was: seq<Definition>) {
    && UnmaskPass(d, was) == Ok(d'.encryptPass) && |d'.targets| == |d.targets|
    && d' == Definition(d.name, d'.encryptPass, d.rest, d'.targets)
    && forall j | 0 <= j < |d.targets| :: ParamsPutBack(d.targets[j], d'.targets[j], d.name, was)
  }

  lemma {:induction false} EachLength<T, U>(s: seq<T>, f: T -> Result<U>)
    ensures Each(s, f).Ok? ==> |Each(s, f).value| == |s|
  {
    if |s| > 0 {
      EachLength(s[..|s| - 1], f);
    }
  }

  lemma TargetPutBack(t: Target, backup: string, was: seq<Definition>)
    requires UnmaskTarget(t, backup, was).Ok?
    ensures ParamsPutBack(t, UnmaskTarget(t, backup, was).value, backup, was)
  {
    var f := (p: Param) => UnmaskParam(p, backup, t.name, t.kind, was);
    EachLength(t.params, f);
    EachIs(t.params, f, Each(t.params, f).value);
  }

  lemma WholeDefinition(d: Definition, was: seq<Definition>)
    requires UnmaskDefinition(d, was).Ok?
    ensures DefinitionPutBack(d, UnmaskDefinition(d, was).value, was)
  {
    var f := (t: Target) => UnmaskTarget(t, d.name, was);
    var ts := Each(d.targets, f).value;
    EachLength(d.targets, f);
    EachIs(d.targets, f, ts);
    forall j | 0 <= j < |d.targets| ensures ParamsPutBack(d.targets[j], ts[j], d.name, was) {
      TargetPutBack(d.targets[j], d.name, was);
    }
  }

  /**
   * A configuration that was copied without an error has every user, email, encryption password and parameter put back by
   * the rules above, entry by entry, and is otherwise the one that was sent.
   */
  lemma EverythingIsPutBack(c: Cfg, was: Cfg)
    requires Unmask(c, was).Ok?
    ensures var r := Unmask(c, was).value;
            && |r.users| == |c.users| && |r.backups| == |c.backups| && |r.emails| == |c.emails| && r.rest == c.rest
            && (forall i | 0 <= i < |c.users| :: UnmaskUser(c.users[i], was.users) == Ok(r.users[i]))
            && (forall i | 0 <= i < |c.backups| :: DefinitionPutBack(c.backups[i], r.backups[i], was.backups))
            && (forall i | 0 <= i < |c.emails| :: UnmaskEmail(c.emails[i], was.emails) == Ok(r.emails[i]))
  {
    var r := Unmask(c, was).value;
    var f := (u: User) => UnmaskUser(u, was.users);
    var g := (d: Definition) => UnmaskDefinition(d, was.backups);
    var h := (e: Email) => UnmaskEmail(e, was.emails);
    EachLength(c.users, f);
    EachLength(c.backups, g);
    EachLength(c.emails, h);
    EachIs(c.users, f, r.users);
    EachIs(c.backups, g, r.backups);
    EachIs(c.emails, h, r.emails);
    forall i | 0 <= i < |c.backups| ensures DefinitionPutBack(c.backups[i], r.backups[i], was.backups) {
      WholeDefinition(c.backups[i], was.backups);
    }
  }
}
