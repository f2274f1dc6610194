/**
 * Masking and copying as they work on the heap: slices are arrays that are overwritten in place
 * (config/config.go:927-1037; shared/structs_config.go:178-234).
 */
module MaskingInPlace {
  import opened Common
  import opened Masking

  /** A target and a backup definition hold references to their slices. */
  datatype TargetRef = TargetRef(name: string, kind: string, rest: string, params: array<Param>)
  datatype DefinitionRef = DefinitionRef(name: string, encryptPass: string, rest: string, targets: array<TargetRef>)
  datatype CfgRef = CfgRef(users: array<User>, backups: array<DefinitionRef>, emails: array<Email>, rest: string)

  // ----- the values behind the references -----------------------------------------------------------

  ghost function ParamArrays(ts: seq<TargetRef>): set<object> {
    set t | t in ts :: t.params
  }

  function ValueOfTarget(t: TargetRef): Target
    reads t.params
  {
    Target(t.name, t.kind, t.rest, t.params[..])
  }

  function ValueOfTargets(ts: seq<TargetRef>): seq<Target>
    reads ParamArrays(ts)
  {
    seq(|ts|, i requires 0 <= i < |ts| reads ParamArrays(ts) => ValueOfTarget(ts[i]))
  }

  /** No two targets share their parameters. */
  ghost predicate Separate(ts: seq<TargetRef>) {
    forall i, j | 0 <= i < j < |ts| :: ts[i].params != ts[j].params
  }

  // ----- masking in place ---------------------------------------------------------------------------

  method MaskUsers(a: array<User>)
    modifies a
    ensures a[..] == seq(a.Length, i requires 0 <= i < a.Length => MaskUser(old(a[i])))
  {
    for i := 0 to a.Length
      invariant forall k | 0 <= k < i :: a[k] == MaskUser(old(a[k]))
      invariant forall k | i <= k < a.Length :: a[k] == old(a[k])
    {
      if a[i].pass != "" {
        a[i] := a[i].(pass := SECRET_REPLACE);
      }
    }
  }

  method MaskEmails(a: array<Email>)
    modifies a
    ensures a[..] == seq(a.Length, i requires 0 <= i < a.Length => MaskEmail(old(a[i])))
  {
    for i := 0 to a.Length
      invariant forall k | 0 <= k < i :: a[k] == MaskEmail(old(a[k]))
      invariant forall k | i <= k < a.Length :: a[k] == old(a[k])
    {
      if a[i].pass != "" {
        a[i] := a[i].(pass := SECRET_REPLACE);
      }
    }
  }

  method MaskParamArray(a: array<Param>)
    modifies a
    ensures a[..] == MaskParams(old(a[..]))
  {
    for i := 0 to a.Length
      invariant forall k | 0 <= k < i :: a[k] == MaskParam(old(a[k]))
      invariant forall k | i <= k < a.Length :: a[k] == old(a[k])
    {
      var name := a[i].name;
      ghost var was := a[i];
      for v := 0 to |SECRET_PARAMETERS|
        invariant forall k | 0 <= k < a.Length && k != i :: a[k] == if k < i then MaskParam(old(a[k])) else old(a[k])
        invariant a[i] == if exists w | 0 <= w < v :: EqualFold(name, SECRET_PARAMETERS[w]) then was.(value := SECRET_REPLACE) else was
      {
        if EqualFold(name, SECRET_PARAMETERS[v]) {
          a[i] := a[i].(value := SECRET_REPLACE);
        }
      }
    }
  }

  method MaskTargetArray(ts: array<TargetRef>)
    requires Separate(ts[..])
    modifies ParamArrays(ts[..])
    ensures ts[..] == old(ts[..])
    ensures ValueOfTargets(ts[..]) == MaskTargets(old(ValueOfTargets(ts[..])))
  {
    ghost var all := ts[..];
    for j := 0 to ts.Length
      invariant ts[..] == all
      invariant forall k | 0 <= k < j :: all[k].params[..] == MaskParams(old(all[k].params[..]))
      invariant forall k | j <= k < |all| :: all[k].params[..] == old(all[k].params[..])
    {
      assert all[j] in all;
      MaskParamArray(ts[j].params);
    }
  }

  // ----- definitions --------------------------------------------------------------------------------

  ghost function Params(lists: seq<array<TargetRef>>): set<object>
    reads lists
  {
    set i, t | 0 <= i < |lists| && t in lists[i][..] :: t.params
  }

  /** No two targets anywhere share their parameters. */
  ghost predicate AllSeparate(lists: seq<array<TargetRef>>)
    reads lists
  {
    && (forall i | 0 <= i < |lists| :: Separate(lists[i][..]))
    && (forall i, j | 0 <= i < j < |lists| :: ParamArrays(lists[i][..]) !! ParamArrays(lists[j][..]))
  }

  /** The target lists of all definitions, masked one after the other. */
  method MaskLists(lists: seq<array<TargetRef>>)
    requires AllSeparate(lists)
    modifies Params(lists)
    ensures forall i | 0 <= i < |lists| :: lists[i][..] == old(lists[i][..])
    ensures forall i | 0 <= i < |lists| :: ValueOfTargets(lists[i][..]) == MaskTargets(old(ValueOfTargets(lists[i][..])))
  {
    for i := 0 to |lists|
      invariant forall k | 0 <= k < |lists| :: lists[k][..] == old(lists[k][..])
      invariant forall k | 0 <= k < i :: ValueOfTargets(lists[k][..]) == MaskTargets(old(ValueOfTargets(lists[k][..])))
      invariant forall k | i <= k < |lists| :: ValueOfTargets(lists[k][..]) == old(ValueOfTargets(lists[k][..]))
    {
      assert forall k | 0 <= k < |lists| && k != i :: ParamArrays(lists[k][..]) !! ParamArrays(lists[i][..]);
      MaskTargetArray(lists[i]);
    }
  }

  method MaskEncryptPasses(a: array<DefinitionRef>)
    modifies a
    ensures forall i | 0 <= i < a.Length :: a[i] == old(a[i]).(encryptPass := Hide(old(a[i]).encryptPass))
  {
    for i := 0 to a.Length
      invariant forall k | 0 <= k < i :: a[k] == old(a[k]).(encryptPass := Hide(old(a[k]).encryptPass))
      invariant forall k | i <= k < a.Length :: a[k] == old(a[k])
    {
      if a[i].encryptPass != "" {
        a[i] := a[i].(encryptPass := SECRET_REPLACE);
      }
    }
  }

  // ----- whole configurations -----------------------------------------------------------------------

  function Lists(ds: seq<DefinitionRef>): seq<array<TargetRef>> {
    seq(|ds|, i requires 0 <= i < |ds| => ds[i].targets)
  }

  function ValueOfDefinitions(ds: seq<DefinitionRef>): seq<Definition>
    reads Lists(ds), Params(Lists(ds))
  {
    seq(|ds|, i requires 0 <= i < |ds| reads Lists(ds), Params(Lists(ds)) =>
      assert ds[i].targets == Lists(ds)[i];
      Definition(ds[i].name, ds[i].encryptPass, ds[i].rest, ValueOfTargets(ds[i].targets[..])))
  }

  method MaskDefinitions(a: array<DefinitionRef>)
    requires AllSeparate(Lists(a[..]))
    modifies a, Params(Lists(a[..]))
    ensures Lists(a[..]) == old(Lists(a[..]))
    ensures |ValueOfDefinitions(a[..])| == a.Length
    ensures forall i | 0 <= i < a.Length :: ValueOfDefinitions(a[..])[i] == MaskDefinition(old(ValueOfDefinitions(a[..]))[i])
  {
    ghost var lists := Lists(a[..]);
    MaskEncryptPasses(a);
    assert Lists(a[..]) == lists;
    assert forall i | 0 <= i < |lists| :: ValueOfTargets(lists[i][..]) == old(ValueOfTargets(lists[i][..]));
    MaskLists(Lists(a[..]));
    forall i | 0 <= i < a.Length ensures ValueOfDefinitions(a[..])[i] == MaskDefinition(old(ValueOfDefinitions(a[..]))[i]) {
      assert a[i].targets == lists[i];
    }
  }

  function Value(c: CfgRef): Cfg
    reads c.users, c.backups, c.emails, Lists(c.backups[..]), Params(Lists(c.backups[..]))
  {
    Cfg(c.users[..], ValueOfDefinitions(c.backups[..]), c.emails[..], c.rest)
  }

  method MaskUsersAndDefinitions(users: array<User>, backups: array<DefinitionRef>)
    requires AllSeparate(Lists(backups[..]))
    modifies users, backups, Params(Lists(backups[..]))
    ensures users[..] == seq(users.Length, i requires 0 <= i < users.Length => MaskUser(old(users[i])))
    ensures Lists(backups[..]) == old(Lists(backups[..])) && |ValueOfDefinitions(backups[..])| == backups.Length
    ensures forall i | 0 <= i < backups.Length :: ValueOfDefinitions(backups[..])[i] == MaskDefinition(old(ValueOfDefinitions(backups[..]))[i])
  {
    ghost var before := ValueOfDefinitions(backups[..]);
    MaskUsers(users);
    assert ValueOfDefinitions(backups[..]) == before;
    MaskDefinitions(backups);
  }

  /** `SanitizeCfgTemplate`, which overwrites the slices it is given. */
  method Sanitize(c: CfgRef)
    requires AllSeparate(Lists(c.backups[..]))
    modifies c.users, c.backups, c.emails, Params(Lists(c.backups[..]))
    ensures Value(c) == Mask(old(Value(c)))
  {
    ghost var before := Value(c);
    MaskUsersAndDefinitions(c.users, c.backups);
    ghost var masked := ValueOfDefinitions(c.backups[..]);
    assert masked == Mask(before).backups && c.users[..] == Mask(before).users && c.emails[..] == before.emails;
    MaskEmails(c.emails);
    assert ValueOfDefinitions(c.backups[..]) == masked;
    assert c.emails[..] == Mask(before).emails;
  }

  // ----- copying ------------------------------------------------------------------------------------

  /** A new slice for the parameters of each target; the values are those read from the source. */
  method NewTargets(ts: seq<Target>) returns (r: array<TargetRef>)
    ensures fresh(r) && fresh(ParamArrays(r[..])) && Separate(r[..])
    ensures ValueOfTargets(r[..]) == ts
  {
    var refs: seq<TargetRef> := [];
    for k := 0 to |ts|
      invariant |refs| == k && Separate(refs)
      invariant forall i | 0 <= i < k :: fresh(refs[i].params) && ValueOfTarget(refs[i]) == ts[i]
    {
      var params := new Param[|ts[k].params|](i requires 0 <= i < |ts[k].params| => ts[k].params[i]);
      assert params[..] == ts[k].params;
      refs := refs + [TargetRef(ts[k].name, ts[k].kind, ts[k].rest, params)];
    }
    r := new TargetRef[|refs|](i requires 0 <= i < |refs| => refs[i]);
    assert r[..] == refs;
  }

  /** `CopyConfigBackupStruct` for every definition. */
  method NewLists(ds: seq<Definition>) returns (lists: seq<array<TargetRef>>)
    ensures |lists| == |ds| && fresh(lists) && fresh(Params(lists)) && AllSeparate(lists)
    ensures forall i | 0 <= i < |ds| :: ValueOfTargets(lists[i][..]) == ds[i].targets
  {
    lists := [];
    ghost var refs: seq<seq<TargetRef>> := [];
    for k := 0 to |ds|
      invariant |lists| == |refs| == k && fresh(lists)
      invariant forall i | 0 <= i < k :: lists[i][..] == refs[i] && Separate(refs[i])
      invariant forall i, j | 0 <= i < j < k :: ParamArrays(refs[i]) !! ParamArrays(refs[j])
      invariant forall i | 0 <= i < k :: fresh(ParamArrays(refs[i])) && ValueOfTargets(refs[i]) == ds[i].targets
    {
      var list := NewTargets(ds[k].targets);
      assert forall i | 0 <= i < k :: ParamArrays(refs[i]) !! ParamArrays(list[..]);
      lists, refs := lists + [list], refs + [list[..]];
    }
    assert forall o | o in Params(lists) :: exists i | 0 <= i < |refs| :: o in ParamArrays(refs[i]);
  }

  method NewDefinitions(ds: seq<Definition>) returns (a: array<DefinitionRef>)
    ensures fresh(a) && fresh(Lists(a[..])) && fresh(Params(Lists(a[..]))) && AllSeparate(Lists(a[..]))
    ensures ValueOfDefinitions(a[..]) == ds
  {
    var lists := NewLists(ds);
    a := new DefinitionRef[|ds|](i requires 0 <= i < |ds| => DefinitionRef(ds[i].name, ds[i].encryptPass, ds[i].rest, lists[i]));
    assert Lists(a[..]) == lists;
    assert forall i | 0 <= i < |ds| :: ValueOfTargets(lists[i][..]) == ds[i].targets;
    forall i | 0 <= i < |ds| ensures ValueOfDefinitions(a[..])[i] == ds[i] {
      assert a[i].targets == lists[i];
    }
  }

  /** `GetCopyWithLock`: every slice that masking writes to is new. */
  method GetCopy(c: CfgRef) returns (r: CfgRef)
    ensures fresh(r.users) && fresh(r.backups) && fresh(r.emails) && fresh(Lists(r.backups[..])) && fresh(Params(Lists(r.backups[..])))
    ensures AllSeparate(Lists(r.backups[..])) && Value(r) == old(Value(c))
  {
    var v := Value(c);
    var users := new User[|v.users|](i requires 0 <= i < |v.users| => v.users[i]);
    var emails := new Email[|v.emails|](i requires 0 <= i < |v.emails| => v.emails[i]);
    var backups := NewDefinitions(v.backups);
    r := CfgRef(users, backups, emails, c.rest);
  }

  /**
   * What the GET handler does. It has no `modifies` clause: masking the copy leaves the live configuration, and
   * everything else on the heap, untouched, however the live slices are shared.
   */
  method GetMasked(c: CfgRef) returns (r: CfgRef)
    ensures Value(r) == Mask(old(Value(c)))
  {
    r := GetCopy(c);
    Sanitize(r);
  }

  // ----- copying passwords back ---------------------------------------------------------------------

  /** `CopyPasswordsFromOldConfigUser` */
  method CopyUserPasswords(a: array<User>, was: seq<User>) returns (ok: bool)
    modifies a
    ensures ok == Each(old(a[..]), (u: User) => UnmaskUser(u, was)).Ok?
    ensures ok ==> Each(old(a[..]), (u: User) => UnmaskUser(u, was)) == Ok(a[..])
  {
    ghost var f := (u: User) => UnmaskUser(u, was);
    ghost var input := a[..];
    for i := 0 to a.Length
      invariant a[i..] == input[i..]
      invariant Each(input[..i], f) == Ok(a[..i])
    {
      EachSnoc(input, f, i);
      ghost var done := a[..i];
      if IsStars(a[i].pass) {
        var o := FirstUser(was, a[i].name);
        if o.None? {
          EachPrefixFails(input, f, i + 1);
          return false;
        }
        a[i] := a[i].(pass := o.value.pass);
      }
      assert f(input[i]) == Ok(a[i]) && a[..i] == done;
      assert a[..i + 1] == done + [a[i]];
    }
    assert input[..a.Length] == input && a[..a.Length] == a[..];
    return true;
  }

  /** How copying passwords ends. The message of the email error indexes the old list, which may be too short for it. */
  datatype CopyOutcome = Copied | CopyRefused | CopyPanics

  /** The number of elements that can be converted before the first that cannot. */
  function Convertible<T, U>(s: seq<T>, f: T -> Result<U>): nat {
    if |s| == 0 then 0
    else
      var n := Convertible(s[..|s| - 1], f);
      if n == |s| - 1 && f(s[n]).Ok? then n + 1 else n
  }

  lemma {:induction false} ConvertibleIs<T, U>(s: seq<T>, f: T -> Result<U>)
    ensures Convertible(s, f) <= |s| && (Convertible(s, f) == |s| <==> Each(s, f).Ok?)
  {
    if |s| > 0 {
      ConvertibleIs(s[..|s| - 1], f);
    }
  }

  lemma {:induction false} ConvertibleStops<T, U>(s: seq<T>, f: T -> Result<U>, i: nat)
    requires i < |s| && Each(s[..i], f).Ok? && f(s[i]).Err?
    ensures Convertible(s, f) == i && Each(s, f).Err?
  {
    var n := |s| - 1;
    ConvertibleIs(s[..i], f);
    if i < n {
      assert s[..n][..i] == s[..i];
      ConvertibleStops(s[..n], f, i);
    } else {
      assert s[..n] == s[..i];
    }
  }

  /** `CopyPasswordsFromOldConfigNotificationsEmails` */
  method CopyEmailPasswords(a: array<Email>, was: seq<Email>) returns (out: CopyOutcome)
    modifies a
    ensures var f := (e: Email) => UnmaskEmail(e, was);
            && (out == Copied <==> Each(old(a[..]), f).Ok?)
            && (out == Copied ==> Each(old(a[..]), f) == Ok(a[..]))
            && (out == CopyPanics <==> Each(old(a[..]), f).Err? && Convertible(old(a[..]), f) >= |was|)
  {
    ghost var f := (e: Email) => UnmaskEmail(e, was);
    ghost var input := a[..];
    for i := 0 to a.Length
      invariant a[i..] == input[i..]
      invariant Each(input[..i], f) == Ok(a[..i])
    {
      EachSnoc(input, f, i);
      ghost var done := a[..i];
      if IsStars(a[i].pass) {
        var o := FirstEmail(was, a[i].server, a[i].user);
        if o.None? {
          ConvertibleStops(input, f, i);
          return if i < |was| then CopyRefused else CopyPanics;
        }
        a[i] := a[i].(pass := o.value.pass);
      }
      assert f(input[i]) == Ok(a[i]) && a[..i] == done;
      assert a[..i + 1] == done + [a[i]];
    }
    assert input[..a.Length] == input && a[..a.Length] == a[..];
    return Copied;
  }

  /** A masked email in front of an empty old list makes the copying panic. */
  lemma EmailPanicExample(e: Email)
    requires IsStars(e.pass)
    ensures var f := (x: Email) => UnmaskEmail(x, []);
            Each([e], f).Err? && Convertible([e], f) == 0
  {
    var f := (x: Email) => UnmaskEmail(x, []);
    assert [e][..0] == [] && f(e).Err?;
  }

  lemma EachSnoc<T, U>(s: seq<T>, f: T -> Result<U>, n: nat)
    requires n < |s|
    ensures var init, last := Each(s[..n], f), f(s[n]);
            Each(s[..n + 1], f) == if init.Err? || last.Err? then Err else Ok(init.value + [last.value])
  {
    assert s[..n + 1][..n] == s[..n];
  }

  lemma {:induction false} EachPrefixFails<T, U>(s: seq<T>, f: T -> Result<U>, n: nat)
    requires n <= |s| && Each(s[..n], f).Err?
    ensures Each(s, f).Err?
    decreases |s| - n
  {
    if n < |s| {
      EachSnoc(s, f, n);
      EachPrefixFails(s, f, n + 1);
    } else {
      assert s[..n] == s;
    }
  }

  /** The parameters of one target in `CopyPasswordsFromOldConfigBackup`. */
  method CopyParamSecrets(a: array<Param>, backup: string, target: string, kind: string, was: seq<Definition>) returns (ok: bool)
    modifies a
    ensures ok == Each(old(a[..]), (p: Param) => UnmaskParam(p, backup, target, kind, was)).Ok?
    ensures ok ==> Each(old(a[..]), (p: Param) => UnmaskParam(p, backup, target, kind, was)) == Ok(a[..])
  {
    ghost var f := (p: Param) => UnmaskParam(p, backup, target, kind, was);
    ghost var input := a[..];
    for i := 0 to a.Length
      invariant a[i..] == input[i..]
      invariant Each(input[..i], f) == Ok(a[..i])
    {
      EachSnoc(input, f, i);
      ghost var done := a[..i];
      if IsSecret(a[i].name) && IsStars(a[i].value) {
        var d := FirstDefinition(was, backup);
        var t := if d.None? then None else FirstTarget(d.value.targets, target, kind);
        var o := if t.None? then None else FirstParam(t.value.params, a[i].name);
        if o.None? || o.value.value == "" {
          EachPrefixFails(input, f, i + 1);
          return false;
        }
        a[i] := a[i].(value := o.value.value);
      }
      assert f(input[i]) == Ok(a[i]) && a[..i] == done;
      assert a[..i + 1] == done + [a[i]];
    }
    assert input[..a.Length] == input && a[..a.Length] == a[..];
    return true;
  }
}
