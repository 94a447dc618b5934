/** What a user may do: log in, run a command, touch a key. The meaning of every rule is stated by the
    answers of these checks, and describing, saving and loading users keeps all of them. */
module AclPermissions {
  import opened Common
  import opened Acl
  import opened AclRoundTrip
  import opened AclRules
  import opened AclText

  // ----- the checks

  /** A command to be executed: its id, whether it is AUTH, its arguments and the keys among them. */
  datatype Call = Call(id: nat, isAuth: bool, argv: seq<string>, keys: seq<string>)

  datatype Verdict = Allowed | DeniedCommand | DeniedKey(position: nat)

  /** A glob pattern matches a key. */
  type Matcher = (string, string) -> bool

  ghost predicate MayCall(p: Perms, c: Call) {
    || p.allcommands || c.isAuth || GetBit(p, c.id)
    || (|c.argv| >= 2 && Contains(SubsOf(p, c.id), CStr(c.argv[1])))
  }

  ghost predicate MayTouch(a: Auth, key: string, matches: Matcher) {
    a.allkeys || exists i :: 0 <= i < |a.patterns| && matches(a.patterns[i], key)
  }

  ghost predicate MayLogIn(a: Auth, password: string, hash: string -> string) {
    !a.disabled && (a.nopass || hash(password) in a.passwords)
  }

  /** The loop over the allowed subcommands. */
  method FindSub(list: seq<string>, arg: string) returns (found: bool)
    ensures found <==> Contains(list, arg)
  {
    var i := 0;
    while i < |list|
      invariant i <= |list| && forall k :: 0 <= k < i ==> Lower(list[k]) != Lower(arg)
    {
      if Lower(arg) == Lower(list[i]) { return true; }
      i := i + 1;
    }
    found := false;
  }

  /** The loop over the key patterns. */
  method FindPattern(patterns: seq<string>, key: string, matches: Matcher) returns (found: bool)
    ensures found <==> exists i :: 0 <= i < |patterns| && matches(patterns[i], key)
  {
    for i := 0 to |patterns|
      invariant forall k :: 0 <= k < i ==> !matches(patterns[k], key)
    {
      if matches(patterns[i], key) { return true; }
    }
    found := false;
  }

  /** ACLCheckCommandPerm: the command first, then the keys in order. */
  method CheckCommandPerm(u: User, c: Call, matches: Matcher) returns (v: Verdict)
    ensures v.DeniedCommand? <==> !MayCall(u.perms, c)
    ensures v.Allowed? <==>
      MayCall(u.perms, c) && forall j :: 0 <= j < |c.keys| ==> MayTouch(u.auth, c.keys[j], matches)
    ensures v.DeniedKey? ==>
      && MayCall(u.perms, c) && v.position < |c.keys| && !MayTouch(u.auth, c.keys[v.position], matches)
      && forall j :: 0 <= j < v.position ==> MayTouch(u.auth, c.keys[j], matches)
  {
    if !u.perms.allcommands && !c.isAuth {
      if !GetBit(u.perms, c.id) {
        if |c.argv| < 2 || c.id !in u.perms.subs {
          return DeniedCommand;
        }
        var found := FindSub(u.perms.subs[c.id], CStr(c.argv[1]));
        if !found { return DeniedCommand; }
      }
    }
    if !u.auth.allkeys {
      for j := 0 to |c.keys|
        invariant forall k :: 0 <= k < j ==> MayTouch(u.auth, c.keys[k], matches)
      {
        var found := FindPattern(u.auth.patterns, c.keys[j], matches);
        if !found { return DeniedKey(j); }
      }
    }
    v := Allowed;
  }

  /** ACLCheckUserCredentials of an existing user. */
  method CheckUserCredentials(a: Auth, password: string, hash: string -> string) returns (ok: bool)
    ensures ok <==> MayLogIn(a, password, hash)
  {
    if a.disabled { return false; }
    if a.nopass { return true; }
    var hashed := hash(password);
    for i := 0 to |a.passwords|
      invariant forall k :: 0 <= k < i ==> a.passwords[k] != hashed
    {
      if a.passwords[i] == hashed { return true; }
    }
    ok := false;
  }

  // ----- describing and saving keep every right

  /** Two users with the same answers, for all commands there can be. */
  ghost predicate SameRights(u: User, v: User) {
    && v.auth == u.auth
    && forall c: Call :: c.id < BITS ==> (MayCall(v.perms, c) <==> MayCall(u.perms, c))
  }

  /** The flag that a description may gain gives no right that the bits do not give. */
  lemma RestoredSameRights(t: Table, u: User)
    requires UserOk(t, u)
    ensures SameRights(u, Restored(u))
  {
    var v := Restored(u);
    forall c: Call | c.id < BITS
      ensures MayCall(v.perms, c) <==> MayCall(u.perms, c)
    {
      assert SubsOf(v.perms, c.id) == SubsOf(u.perms, c.id);
    }
  }

  /** A reachable user replayed from its description has exactly the rights it had. */
  lemma DescriptionKeepsRights(t: Table, ops: seq<string>, hash: string -> string, v: User)
    requires TableOk(t) && HashOk(hash) && Replays(t, Fresh(), Describe(t, Reached(t, ops, hash)), hash, v)
    ensures SameRights(Reached(t, ops, hash), v)
  {
    var u := Reached(t, ops, hash);
    hide SameRights, Describe, Reached, TableOk;
    ReachedIsOk(t, ops, hash);
    RestoredSameRights(t, u);
    DescriptionReplays(t, u, hash);
    ReplaysUnique(t, Fresh(), Describe(t, u), hash, v, Restored(u));
  }

  /** Saving users to a file and loading it keeps the rights of every one of them, when their
      subcommands survive the file. */
  lemma FileKeepsRights(t: Table, accounts: seq<Account>, hash: string -> string, a: Account)
    requires TableOk(t) && HashOk(hash) && NamesAreWords(t) && Known(t, accounts, hash) && a in accounts
    requires forall b :: b in accounts ==> AllSubs(Clean, b.user.perms)
    ensures var r := LoadFile(t, SaveFile(t, accounts), hash);
      r.Some? && a.name in r.value && SameRights(a.user, r.value[a.name])
  {
    hide SameRights, LoadFile, SaveFile, TableOk, HashOk, NamesAreWords, AllSubs, UserOk;
    CleanFileLoads(t, accounts, hash);
    KnownIsSaved(t, accounts, hash);
    hide Known;
    assert UserOk(t, a.user);
    RestoredSameRights(t, a.user);
  }

  // ----- what the rules allow

  /** After `+@name` the commands of the category may be called and all others as before; after
      `-@name` none of them may, with any argument. */
  lemma CategoryRuleMeans(t: Table, u: User, op: string, hash: string -> string, c: Call)
    requires TableOk(t) && UserOk(t, u) && c.id < BITS
    requires var k := CStr(op); |k| >= 2 && (k[0] == '+' || k[0] == '-') && k[1] == '@' && Lower(k[2..]) in CATEGORIES
    ensures var k, v := CStr(op), SetUser(t, u, op, hash).0;
      var member := c.id in Members(t, Lower(k[2..]));
      && v.auth == u.auth
      && (k[0] == '+' ==> (MayCall(v.perms, c) <==> member || MayCall(u.perms, c)))
      && (k[0] == '-' ==> (MayCall(v.perms, c) <==> c.isAuth || (!member && MayCall(u.perms, c))))
  {
    hide SetUser, CStr, Lower, IsHash, Members, HasSpaces;
    CategoryIsLower(Lower(CStr(op)[2..]));
    CategoryRuleExact(t, u, op, hash);
    var v := SetUser(t, u, op, hash).0;
    assert c.id !in Members(t, Lower(CStr(op)[2..])) ==> SubsOf(v.perms, c.id) == SubsOf(u.perms, c.id);
  }

  /** `+name` and `-name` for a command of the table. */
  lemma CommandRuleMeans(t: Table, u: User, cmd: Cmd, plus: bool, hash: string -> string, c: Call)
    requires TableOk(t) && UserOk(t, u) && cmd in t && c.id < BITS
    ensures var (v, r) := SetUser(t, u, (if plus then "+" else "-") + cmd.name, hash);
      && r == Ok && v.auth == u.auth
      && (plus ==> (MayCall(v.perms, c) <==> c.id == cmd.id || MayCall(u.perms, c)))
      && (!plus ==> (MayCall(v.perms, c) <==> c.isAuth || (c.id != cmd.id && MayCall(u.perms, c))))
  {
    CommandRule(t, u, cmd, plus, hash);
    var op := (if plus then "+" else "-") + cmd.name;
    hide SetUser, CStr, Lower, IsHash, HasSpaces;
    assert [op][1..] == [];
    SetBitEffect(u.perms, cmd.id, plus);
    var q := SetCommand(u.perms, cmd.id, plus);
    assert c.id != cmd.id ==> SubsOf(q, c.id) == SubsOf(u.perms, c.id);
  }

  /** `+name|sub` adds the calls with that first argument, in any case, and no other; it is
      refused when the command is allowed already. */
  lemma SubRuleMeans(t: Table, u: User, cmd: Cmd, sub: string, hash: string -> string, c: Call)
    requires TableOk(t) && UserOk(t, u) && cmd in t && c.id < BITS && SubOk(sub)
    ensures var (v, r) := SetUser(t, u, SubRuleText(cmd.name, sub), hash);
      if GetBit(u.perms, cmd.id) then r == EBUSY && v == u
      else (&& r == Ok && v.auth == u.auth
            && (MayCall(v.perms, c) <==>
                  || MayCall(u.perms, c)
                  || (c.id == cmd.id && |c.argv| >= 2 && Lower(CStr(c.argv[1])) == Lower(sub))))
  {
    if GetBit(u.perms, cmd.id) { SubRuleBusy(t, u, cmd, sub, hash); } else { SubRuleAdds(t, u, cmd, sub, hash, c); }
  }

  lemma BusyParses(t: Table, p: Perms, cmd: Cmd, sub: string)
    requires TableOk(t) && cmd in t && SubOk(sub) && GetBit(p, cmd.id)
    ensures var op := SubRuleText(cmd.name, sub);
      op != [] && op[0] == '+' && ApplyCommandRule(t, p, op) == (p, EBUSY)
  {
    SubRuleShape(cmd.name, sub);
    hide SubRuleText;
    FindByName(t, cmd);
    hide Find, TableOk, SetCategory, SetCommand, AddSub;
  }

  lemma SubRuleBusy(t: Table, u: User, cmd: Cmd, sub: string, hash: string -> string)
    requires TableOk(t) && cmd in t && SubOk(sub) && GetBit(u.perms, cmd.id)
    ensures SetUser(t, u, SubRuleText(cmd.name, sub), hash) == (u, EBUSY)
  {
    hide ApplyCommandRule, Keyword, CStr, Lower, SubRuleText, ApplyPassword, ApplyPattern;
    SubRuleIsRule(u, cmd.name, sub);
    BusyParses(t, u.perms, cmd, sub);
  }

  lemma SubRuleAdds(t: Table, u: User, cmd: Cmd, sub: string, hash: string -> string, c: Call)
    requires TableOk(t) && UserOk(t, u) && cmd in t && c.id < BITS && SubOk(sub) && !GetBit(u.perms, cmd.id)
    ensures var (v, r) := SetUser(t, u, SubRuleText(cmd.name, sub), hash);
      && r == Ok && v.auth == u.auth
      && (MayCall(v.perms, c) <==>
            || MayCall(u.perms, c)
            || (c.id == cmd.id && |c.argv| >= 2 && Lower(CStr(c.argv[1])) == Lower(sub)))
  {
    SubRule(t, u, cmd, sub, hash);
    var op := SubRuleText(cmd.name, sub);
    hide SetUser, CStr, Lower, IsHash, HasSpaces, SubRuleText;
    assert [op][1..] == [];
    SetBitEffect(AddSub(u.perms, cmd.id, sub), cmd.id, false);
    var q := SetBit(AddSub(u.perms, cmd.id, sub), cmd.id, false);
    assert c.id != cmd.id ==> SubsOf(q, c.id) == SubsOf(u.perms, c.id);
    if |c.argv| >= 2 { AddSubContains(SubsOf(u.perms, cmd.id), sub, CStr(c.argv[1])); }
  }

  lemma AddSubContains(list: seq<string>, sub: string, arg: string)
    ensures Contains(list + [sub], arg) <==> Contains(list, arg) || Lower(arg) == Lower(sub)
    ensures Contains(list, sub) && Lower(arg) == Lower(sub) ==> Contains(list, arg)
  {
    var more := list + [sub];
    assert more[|list|] == sub;
    assert forall i :: 0 <= i < |list| ==> more[i] == list[i];
  }

  /** The words that stand for a whole right. */
  lemma KeywordMeans(t: Table, u: User, op: string, hash: string -> string, c: Call, key: string, password: string,
                     matches: Matcher)
    requires c.id < BITS && op != []
    ensures var k, (v, r) := Lower(CStr(op)), SetUser(t, u, op, hash);
      && (k == "on" ==> r == Ok && (MayLogIn(v.auth, password, hash) <==>
            u.auth.nopass || hash(password) in u.auth.passwords))
      && (k == "nopass" ==> r == Ok && (MayLogIn(v.auth, password, hash) <==> !u.auth.disabled))
      && (k == "off" || k == "resetpass" || k == "reset" ==> r == Ok && !MayLogIn(v.auth, password, hash))
      && (k == "allkeys" || k == "~*" ==> r == Ok && MayTouch(v.auth, key, matches))
      && (k == "resetkeys" || k == "reset" ==> r == Ok && !MayTouch(v.auth, key, matches))
      && (k == "allcommands" || k == "+@all" ==> r == Ok && MayCall(v.perms, c))
      && (k == "nocommands" || k == "-@all" || k == "reset" ==> r == Ok && (MayCall(v.perms, c) <==> c.isAuth))
  {
    hide CStr, ApplyPassword, ApplyPattern, ApplyCommandRule;
    var k := Lower(CStr(op));
    if k == "reset" { assert k[0] == 'r' && op[0] == CStr(op)[0]; }
  }

  /** What a word leaves alone. */
  lemma KeywordKeeps(t: Table, u: User, op: string, hash: string -> string)
    requires op != []
    ensures var k, v := Lower(CStr(op)), SetUser(t, u, op, hash).0;
      && (k == "on" || k == "off" ==> v == u.(auth := u.auth.(enabled := v.auth.enabled, disabled := v.auth.disabled)))
      && (k == "nopass" || k == "resetpass" ==> OnlyPasswords(u, v))
      && (k == "allkeys" || k == "~*" || k == "resetkeys" ==>
            v == u.(auth := u.auth.(allkeys := v.auth.allkeys, patterns := v.auth.patterns)))
      && (k == "allcommands" || k == "+@all" || k == "nocommands" || k == "-@all" ==> v.auth == u.auth)
  {
    hide CStr, Lower, ApplyPassword, ApplyPattern, ApplyCommandRule;
  }

  /** Afterwards the removed password does not open the account, and every other one does as before. */
  lemma RemoveRuleMeans(t: Table, u: User, op: string, hash: string -> string, password: string)
    requires UserOk(t, u) && op != [] && (op[0] == '<' || op[0] == '!')
    ensures var (v, r) := SetUser(t, u, op, hash);
      r == Ok ==> (MayLogIn(v.auth, password, hash) <==>
                     MayLogIn(u.auth, password, hash) && hash(password) != RulePassword(op, hash))
  {
    hide SetUser, PermsOk, RulePassword, IsHash, HasSpaces;
    RemoveRuleExact(t, u, op, hash);
    var (v, r) := SetUser(t, u, op, hash);
    if r == Ok {
      var x, list := RulePassword(op, hash), u.auth.passwords;
      var i :| Without(list, x, v.auth.passwords, i);
      WithoutIn(list, x, v.auth.passwords, i, hash(password));
    }
  }

  lemma WithoutIn(list: seq<string>, x: string, rest: seq<string>, i: int, y: string)
    requires Distinct(list) && Without(list, x, rest, i)
    ensures y in rest <==> y in list && y != x
  {
    assert list == list[..i] + [x] + list[i + 1..];
  }

  /** Afterwards the added password opens an account that is on, and every other one does as
      before, but no longer any password. */
  lemma AddRuleMeans(t: Table, u: User, op: string, hash: string -> string, password: string)
    requires op != [] && (op[0] == '>' || op[0] == '#')
    ensures var (v, r) := SetUser(t, u, op, hash);
      r == Ok ==> (MayLogIn(v.auth, password, hash) <==>
                     && !u.auth.disabled
                     && (hash(password) in u.auth.passwords || hash(password) == RulePassword(op, hash)))
  {
    hide SetUser, RulePassword, IsHash;
    AddRuleExact(t, u, op, hash);
  }

  /** `~pattern` adds the keys that the pattern matches; it is refused for a user of all keys and
      for a pattern with blanks. */
  lemma PatternRuleMeans(t: Table, u: User, op: string, hash: string -> string, key: string, matches: Matcher)
    requires op != [] && op[0] == '~' && Lower(CStr(op)) != "~*"
    ensures var (v, r) := SetUser(t, u, op, hash);
      if u.auth.allkeys then r == EEXIST && v == u
      else if HasSpaces(op[1..]) then r == EINVAL && v == u
      else (&& r == Ok && v == u.(auth := u.auth.(patterns := v.auth.patterns))
            && (MayTouch(v.auth, key, matches) <==> MayTouch(u.auth, key, matches) || matches(op[1..], key)))
  {
    hide CStr, HasSpaces;
    assert CStr(op) == [] || Lower(CStr(op))[0] == '~';
    var list := u.auth.patterns;
    assert (list + [op[1..]])[|list|] == op[1..];
    assert forall i :: 0 <= i < |list| ==> (list + [op[1..]])[i] == list[i];
  }
}
