/** Masking secrets in a configuration and putting them back (config/config.go:923-1172). */
module Masking {
  import opened Common

  const SECRET_REPLACE := "****************"

  /** `ParemtersWithSecrets` */
  const SECRET_PARAMETERS: seq<string> := ["aws_secret_access_key", "private_key", "password", "pass"]

  /** The sections that hold secrets; `rest` stands for every field that masking does not look at. */
  datatype User = User(name: string, pass: string, rest: string)
  datatype Param = Param(name: string, value: string)
  datatype Target = Target(name: string, kind: string, rest: string, params: seq<Param>)
  datatype Definition = Definition(name: string, encryptPass: string, rest: string, targets: seq<Target>)
  datatype Email = Email(server: string, user: string, pass: string, rest: string)
  datatype Cfg = Cfg(users: seq<User>, backups: seq<Definition>, emails: seq<Email>, rest: string)

  // ----- strings ------------------------------------------------------------------------------------

  /** Unicode simple folding, as far as it can reach an ASCII character. */
  function FoldChar(c: char): char {
    if 'A' <= c <= 'Z' then c - 'A' + 'a'
    else if c == '\U{17F}' then 's'
    else if c == '\U{212A}' then 'k'
    else c
  }

  /** `strings.EqualFold` against a name whose folded form is ASCII */
  predicate EqualFold(a: string, b: string) {
    |a| == |b| && forall i | 0 <= i < |a| :: FoldChar(a[i]) == FoldChar(b[i])
  }

  predicate IsSecret(name: string) {
    exists i | 0 <= i < |SECRET_PARAMETERS| :: EqualFold(name, SECRET_PARAMETERS[i])
  }

  /** `CheckStringIsOnly(s, "*")` */
  predicate IsStars(s: string) {
    |s| > 0 && forall i | 0 <= i < |s| :: s[i] == '*'
  }

  /** What masking does to a password field: an empty one is left alone. */
  function Hide(pass: string): string {
    if pass != "" then SECRET_REPLACE else pass
  }

  lemma HiddenIsStars(pass: string)
    ensures IsStars(Hide(pass)) <==> pass != ""
  {}

  // ----- masking ------------------------------------------------------------------------------------

  function MaskUser(u: User): User {
    u.(pass := Hide(u.pass))
  }

  function MaskEmail(e: Email): Email {
    e.(pass := Hide(e.pass))
  }

  /** Unlike a password, a secret parameter is masked even when it is empty. */
  function MaskParam(p: Param): Param {
    if IsSecret(p.name) then p.(value := SECRET_REPLACE) else p
  }

  function MaskParams(ps: seq<Param>): seq<Param> {
    seq(|ps|, i requires 0 <= i < |ps| => MaskParam(ps[i]))
  }

  function MaskTargets(ts: seq<Target>): seq<Target> {
    seq(|ts|, i requires 0 <= i < |ts| => ts[i].(params := MaskParams(ts[i].params)))
  }

  function MaskDefinition(d: Definition): Definition {
    d.(encryptPass := Hide(d.encryptPass), targets := MaskTargets(d.targets))
  }

  /** `SanitizeCfgTemplate` */
  function Mask(c: Cfg): Cfg {
    c.(users := seq(|c.users|, i requires 0 <= i < |c.users| => MaskUser(c.users[i])),
       backups := seq(|c.backups|, i requires 0 <= i < |c.backups| => MaskDefinition(c.backups[i])),
       emails := seq(|c.emails|, i requires 0 <= i < |c.emails| => MaskEmail(c.emails[i])))
  }

  // ----- finding the counterpart --------------------------------------------------------------------

  /** The first entry with the same key. */
  function FirstUser(us: seq<User>, name: string): Option<User> {
    if |us| == 0 then None else if us[0].name == name then Some(us[0]) else FirstUser(us[1..], name)
  }

  function FirstEmail(es: seq<Email>, server: string, user: string): Option<Email> {
    if |es| == 0 then None
    else if es[0].server == server && es[0].user == user then Some(es[0])
    else FirstEmail(es[1..], server, user)
  }

  function FirstDefinition(ds: seq<Definition>, name: string): Option<Definition> {
    if |ds| == 0 then None else if ds[0].name == name then Some(ds[0]) else FirstDefinition(ds[1..], name)
  }

  function FirstTarget(ts: seq<Target>, name: string, kind: string): Option<Target> {
    if |ts| == 0 then None
    else if ts[0].name == name && ts[0].kind == kind then Some(ts[0])
    else FirstTarget(ts[1..], name, kind)
  }

  function FirstParam(ps: seq<Param>, name: string): Option<Param> {
    if |ps| == 0 then None else if EqualFold(ps[0].name, name) then Some(ps[0]) else FirstParam(ps[1..], name)
  }

  // ----- unmasking ----------------------------------------------------------------------------------

  /** `CopyPasswordsFromOldConfigUser`, one entry. */
  function UnmaskUser(u: User, was: seq<User>): Result<User> {
    if !IsStars(u.pass) then Ok(u)
    else match FirstUser(was, u.name)
      case None => Err
      case Some(o) => Ok(u.(pass := o.pass))
  }

  /** `CopyPasswordsFromOldConfigNotificationsEmails`, one entry. */
  function UnmaskEmail(e: Email, was: seq<Email>): Result<Email> {
    if !IsStars(e.pass) then Ok(e)
    else match FirstEmail(was, e.server, e.user)
      case None => Err
      case Some(o) => Ok(e.(pass := o.pass))
  }

  function UnmaskPass(d: Definition, was: seq<Definition>): Result<string> {
    if !IsStars(d.encryptPass) then Ok(d.encryptPass)
    else match FirstDefinition(was, d.name)
      case None => Err
      case Some(o) => if o.encryptPass == "" then Err else Ok(o.encryptPass)
  }

  /** One parameter: the counterpart is looked up by backup name, target name and type, and parameter name. */
  function UnmaskParam(p: Param, backup: string, target: string, kind: string, was: seq<Definition>): Result<Param> {
    if !IsSecret(p.name) || !IsStars(p.value) then Ok(p)
    else match FirstDefinition(was, backup)
      case None => Err
      case Some(d) =>
        match FirstTarget(d.targets, target, kind)
        case None => Err
        case Some(t) =>
          match FirstParam(t.params, p.name)
          case None => Err
          case Some(o) => if o.value == "" then Err else Ok(p.(value := o.value))
  }

  /** Every element converted, or an error at the first that cannot be. */
  function Each<T, U>(s: seq<T>, f: T -> Result<U>): Result<seq<U>> {
    if |s| == 0 then Ok([])
    else
      var init := Each(s[..|s| - 1], f);
      if init.Err? then Err
      else
        var last := f(s[|s| - 1]);
        if last.Err? then Err else Ok(init.value + [last.value])
  }

  function UnmaskTarget(t: Target, backup: string, was: seq<Definition>): Result<Target> {
    var ps := Each(t.params, (p: Param) => UnmaskParam(p, backup, t.name, t.kind, was));
    if ps.Err? then Err else Ok(t.(params := ps.value))
  }

  /** `CopyPasswordsFromOldConfigBackup`, one entry. */
  function UnmaskDefinition(d: Definition, was: seq<Definition>): Result<Definition> {
    var pass := UnmaskPass(d, was);
    var ts := Each(d.targets, (t: Target) => UnmaskTarget(t, d.name, was));
    if pass.Err? || ts.Err? then Err else Ok(d.(encryptPass := pass.value, targets := ts.value))
  }

  /** `CopyPasswordsFromOldConfig` */
  function Unmask(c: Cfg, was: Cfg): Result<Cfg> {
    var users := Each(c.users, (u: User) => UnmaskUser(u, was.users));
    var backups := Each(c.backups, (d: Definition) => UnmaskDefinition(d, was.backups));
    var emails := Each(c.emails, (e: Email) => UnmaskEmail(e, was.emails));
    if users.Err? || backups.Err? || emails.Err? then Err
    else Ok(c.(users := users.value, backups := backups.value, emails := emails.value))
  }

  /** An elementwise conversion gives exactly the wanted list when each element gives its own. */
  lemma {:induction false} EachIs<T, U>(s: seq<T>, f: T -> Result<U>, want: seq<U>)
    requires |want| == |s|
    ensures Each(s, f) == Ok(want) <==> forall i | 0 <= i < |s| :: f(s[i]) == Ok(want[i])
  {
    if |s| > 0 {
      var n := |s| - 1;
      EachIs(s[..n], f, want[..n]);
      assert want == want[..n] + [want[n]];
    }
  }

  // ----- validated configurations -------------------------------------------------------------------

  /** What the validators guarantee (config/config.go:166, 343, 421-433, 834). */
  ghost predicate Validated(c: Cfg) {
    && (forall i, j | 0 <= i < j < |c.users| :: c.users[i].name != c.users[j].name)
    && (forall i, j | 0 <= i < j < |c.backups| :: c.backups[i].name != c.backups[j].name)
    && (forall i | 0 <= i < |c.backups| :: ValidTargets(c.backups[i].targets))
  }

  ghost predicate ValidTargets(ts: seq<Target>) {
    && (forall i, j | 0 <= i < j < |ts| :: ts[i].name != ts[j].name)
    && (forall i | 0 <= i < |ts| :: ValidParams(ts[i].params))
  }

  ghost predicate ValidParams(ps: seq<Param>) {
    forall i, j | 0 <= i < j < |ps| :: !EqualFold(ps[i].name, ps[j].name)
  }

  lemma {:induction false} FirstUserIs(us: seq<User>, i: nat)
    requires i < |us| && forall i, j | 0 <= i < j < |us| :: us[i].name != us[j].name
    ensures FirstUser(us, us[i].name) == Some(us[i])
    decreases i
  {
    if i > 0 {
      FirstUserIs(us[1..], i - 1);
    }
  }

  lemma {:induction false} FirstDefinitionIs(ds: seq<Definition>, i: nat)
    requires i < |ds| && forall i, j | 0 <= i < j < |ds| :: ds[i].name != ds[j].name
    ensures FirstDefinition(ds, ds[i].name) == Some(ds[i])
    decreases i
  {
    if i > 0 {
      FirstDefinitionIs(ds[1..], i - 1);
    }
  }

  lemma {:induction false} FirstTargetIs(ts: seq<Target>, i: nat)
    requires i < |ts| && forall i, j | 0 <= i < j < |ts| :: ts[i].name != ts[j].name
    ensures FirstTarget(ts, ts[i].name, ts[i].kind) == Some(ts[i])
    decreases i
  {
    if i > 0 {
      FirstTargetIs(ts[1..], i - 1);
    }
  }

  lemma {:induction false} FirstParamIs(ps: seq<Param>, i: nat)
    requires i < |ps| && ValidParams(ps)
    ensures FirstParam(ps, ps[i].name) == Some(ps[i])
    decreases i
  {
    if i > 0 {
      FirstParamIs(ps[1..], i - 1);
    }
  }

  lemma {:induction false} FirstEmailExists(es: seq<Email>, i: nat)
    requires i < |es|
    ensures FirstEmail(es, es[i].server, es[i].user).Some?
    decreases i
  {
    if i > 0 && !(es[0].server == es[i].server && es[0].user == es[i].user) {
      FirstEmailExists(es[1..], i - 1);
    }
  }

  // ----- the round trip -----------------------------------------------------------------------------

  ghost predicate NoEmptySecret(ps: seq<Param>) {
    forall i | 0 <= i < |ps| && IsSecret(ps[i].name) :: ps[i].value != ""
  }

  /** The password of an email entry is that of the first entry for the same server and user. */
  ghost predicate SamePassword(e: Email, es: seq<Email>) {
    var first := FirstEmail(es, e.server, e.user);
    e.pass != "" ==> first.Some? && first.value.pass == e.pass
  }

  lemma UserRoundTrip(c: Cfg, i: nat)
    requires Validated(c) && i < |c.users|
    ensures UnmaskUser(MaskUser(c.users[i]), c.users) == Ok(c.users[i])
  {
    HiddenIsStars(c.users[i].pass);
    FirstUserIs(c.users, i);
  }

  lemma EmailRoundTrip(es: seq<Email>, i: nat)
    requires i < |es|
    ensures UnmaskEmail(MaskEmail(es[i]), es) == Ok(es[i]) <==> SamePassword(es[i], es)
  {
    HiddenIsStars(es[i].pass);
    FirstEmailExists(es, i);
  }

  lemma ParamRoundTrip(c: Cfg, i: nat, j: nat, k: nat)
    requires Validated(c) && i < |c.backups| && j < |c.backups[i].targets| && k < |c.backups[i].targets[j].params|
    ensures var d := c.backups[i];
            var t := d.targets[j];
            var p := t.params[k];
            UnmaskParam(MaskParam(p), d.name, t.name, t.kind, c.backups) == Ok(p) <==> (IsSecret(p.name) ==> p.value != "")
  {
    FirstDefinitionIs(c.backups, i);
    FirstTargetIs(c.backups[i].targets, j);
    FirstParamIs(c.backups[i].targets[j].params, k);
  }

  lemma TargetRoundTrip(c: Cfg, i: nat, j: nat)
    requires Validated(c) && i < |c.backups| && j < |c.backups[i].targets|
    ensures var d := c.backups[i];
            var t := d.targets[j];
            UnmaskTarget(t.(params := MaskParams(t.params)), d.name, c.backups) == Ok(t) <==> NoEmptySecret(t.params)
  {
    var d, t := c.backups[i], c.backups[i].targets[j];
    var f := (p: Param) => UnmaskParam(p, d.name, t.name, t.kind, c.backups);
    EachIs(MaskParams(t.params), f, t.params);
    forall k | 0 <= k < |t.params|
      ensures f(MaskParams(t.params)[k]) == Ok(t.params[k]) <==> (IsSecret(t.params[k].name) ==> t.params[k].value != "")
    {
      ParamRoundTrip(c, i, j, k);
    }
  }

  lemma DefinitionRoundTrip(c: Cfg, i: nat)
    requires Validated(c) && i < |c.backups|
    ensures var d := c.backups[i];
            UnmaskDefinition(MaskDefinition(d), c.backups) == Ok(d) <==> forall j | 0 <= j < |d.targets| :: NoEmptySecret(d.targets[j].params)
  {
    var d := c.backups[i];
    var f := (t: Target) => UnmaskTarget(t, d.name, c.backups);
    HiddenIsStars(d.encryptPass);
    FirstDefinitionIs(c.backups, i);
    EachIs(MaskTargets(d.targets), f, d.targets);
    forall j | 0 <= j < |d.targets| ensures f(MaskTargets(d.targets)[j]) == Ok(d.targets[j]) <==> NoEmptySecret(d.targets[j].params) {
      TargetRoundTrip(c, i, j);
    }
  }

  /**
   * Masking is undone by unmasking: copying the secrets of a validated configuration into its masked form gives the
   * configuration back exactly when no secret parameter is empty and emails to one server and user share one password.
   */
  lemma MaskRoundTrip(c: Cfg)
    requires Validated(c)
    ensures Unmask(Mask(c), c) == Ok(c) <==>
            && (forall i, j | 0 <= i < |c.backups| && 0 <= j < |c.backups[i].targets| :: NoEmptySecret(c.backups[i].targets[j].params))
            && (forall i | 0 <= i < |c.emails| :: SamePassword(c.emails[i], c.emails))
  {
    var m := Mask(c);
    EachIs(m.users, (u: User) => UnmaskUser(u, c.users), c.users);
    EachIs(m.backups, (d: Definition) => UnmaskDefinition(d, c.backups), c.backups);
    EachIs(m.emails, (e: Email) => UnmaskEmail(e, c.emails), c.emails);
    forall i | 0 <= i < |c.users| ensures UnmaskUser(m.users[i], c.users) == Ok(c.users[i]) {
      UserRoundTrip(c, i);
    }
    forall i | 0 <= i < |c.emails| ensures UnmaskEmail(m.emails[i], c.emails) == Ok(c.emails[i]) <==> SamePassword(c.emails[i], c.emails) {
      EmailRoundTrip(c.emails, i);
    }
    forall i | 0 <= i < |c.backups|
      ensures UnmaskDefinition(m.backups[i], c.backups) == Ok(c.backups[i]) <==>
              forall j | 0 <= j < |c.backups[i].targets| :: NoEmptySecret(c.backups[i].targets[j].params)
    {
      DefinitionRoundTrip(c, i);
    }
  }

  // ----- inputs that do not come back ----------------------------------------------------------------

  /** A validated configuration with one secret parameter that is empty is not given back. */
  lemma EmptySecretExample()
    ensures var t := Target("t", "s3", "", [Param("password", "")]);
            var c := Cfg([], [Definition("b", "", "", [t])], [], "");
            Validated(c) && Unmask(Mask(c), c) != Ok(c)
  {
    var t := Target("t", "s3", "", [Param("password", "")]);
    var c := Cfg([], [Definition("b", "", "", [t])], [], "");
    var secret := SECRET_PARAMETERS[2];
    assert secret == "password" && EqualFold(t.params[0].name, secret);
    assert IsSecret(t.params[0].name);
    assert !NoEmptySecret(t.params);
    assert c.backups[0].targets[0].params == t.params;
    MaskRoundTrip(c);
  }

  /** Of two emails to one server and user, the second comes back with the password of the first. */
  lemma TwoEmailsExample()
    ensures var es := [Email("s", "u", "1", ""), Email("s", "u", "2", "")];
            var c := Cfg([], [], es, "");
            && Validated(c) && Unmask(Mask(c), c) != Ok(c)
            && UnmaskEmail(MaskEmail(es[1]), es) == Ok(es[1].(pass := "1"))
  {
    var es := [Email("s", "u", "1", ""), Email("s", "u", "2", "")];
    var c := Cfg([], [], es, "");
    HiddenIsStars("2");
    assert FirstEmail(es, "s", "u") == Some(es[0]);
    assert !SamePassword(c.emails[1], c.emails);
    MaskRoundTrip(c);
  }
}
