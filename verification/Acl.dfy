/** ACL users: the interpreter of rule tokens and the describer that prints them, as functions
    on values. */
module Acl {
  import opened Common

  // USER_COMMAND_BITS_COUNT; the last bit is reserved for commands loaded in the future.
  const BITS: nat := 1024
  const FUTURE: nat := 1023

  /** An entry of the command table; `name` is in lower case. */
  datatype Cmd = Cmd(name: string, id: nat, categories: set<string>, isModule: bool)

  type Table = seq<Cmd>

  const CATEGORIES: seq<string> := [
    "keyspace", "read", "write", "set", "sortedset", "list", "hash", "string", "bitmap",
    "hyperloglog", "geo", "stream", "pubsub", "admin", "fast", "slow", "blocking",
    "dangerous", "connection", "transaction", "scripting"]

  datatype Auth = Auth(
    enabled: bool, disabled: bool,
    nopass: bool, passwords: seq<string>,
    allkeys: bool, patterns: seq<string>)

  /** What a user may run: the command bitmap, the flag that skips the bitmap test, and the
      subcommands allowed for commands whose bit is not set. */
  datatype Perms = Perms(bits: seq<bool>, allcommands: bool, subs: map<nat, seq<string>>)

  datatype User = User(auth: Auth, perms: Perms)

  datatype Result = Ok | EINVAL | ENOENT | EBUSY | EEXIST | ENODEV | EBADMSG

  function NoBits(): seq<bool> { seq(BITS, _ => false) }
  function AllBits(): seq<bool> { seq(BITS, _ => true) }

  function Fresh(): User {
    User(Auth(false, true, false, [], false, []), Perms(NoBits(), false, map[]))
  }

  // ----- strings

  /** The part of a buffer that C string functions see. */
  function CStr(s: string): (r: string)
    ensures r <= s && forall i :: 0 <= i < |r| ==> r[i] != '\0'
  {
    if s == [] || s[0] == '\0' then [] else [s[0]] + CStr(s[1..])
  }

  predicate HasSpaces(s: string) {
    exists i :: 0 <= i < |s| && (IsSpace(s[i]) || s[i] == '\0')
  }

  predicate IsHash(s: string) {
    |s| == 64 && forall i :: 0 <= i < |s| ==> 'a' <= s[i] <= 'f' || '0' <= s[i] <= '9'
  }

  /** Position of the first `c`, or the length. */
  function IndexOf(s: string, c: char): (i: nat)
    ensures i <= |s| && (i < |s| ==> s[i] == c) && forall k :: 0 <= k < i ==> s[k] != c
  {
    if s == [] || s[0] == c then 0 else 1 + IndexOf(s[1..], c)
  }

  // ----- commands

  function Find(t: Table, name: string): (r: Option<Cmd>)
    ensures r.Some? ==> r.value in t && Lower(r.value.name) == Lower(name)
    ensures r.None? ==> forall c :: c in t ==> Lower(c.name) != Lower(name)
  {
    if t == [] then None
    else if Lower(t[0].name) == Lower(name) then Some(t[0])
    else Find(t[1..], name)
  }

  function GetBit(p: Perms, id: nat): bool {
    id < |p.bits| && p.bits[id]
  }

  function SetBit(p: Perms, id: nat, value: bool): Perms {
    if id >= |p.bits| then p
    else if value then p.(bits := p.bits[id := true])
    else p.(bits := p.bits[id := false], allcommands := false)
  }

  function ResetSubs(p: Perms, id: nat): Perms {
    p.(subs := p.subs - {id})
  }

  function SubsOf(p: Perms, id: nat): seq<string> {
    if id in p.subs then p.subs[id] else []
  }

  /** Set or clear a command; its subcommands are forgotten. */
  function SetCommand(p: Perms, id: nat, value: bool): Perms {
    ResetSubs(SetBit(p, id, value), id)
  }

  predicate InCategory(c: Cmd, category: string) {
    category in c.categories
  }

  function SetCategory(t: Table, p: Perms, category: string, value: bool): Perms
    decreases t
  {
    if t == [] then p
    else
      var q := if !t[0].isModule && InCategory(t[0], category) then SetCommand(p, t[0].id, value) else p;
      SetCategory(t[1..], q, category, value)
  }

  predicate Contains(list: seq<string>, sub: string) {
    exists i :: 0 <= i < |list| && Lower(list[i]) == Lower(sub)
  }

  function AddSub(p: Perms, id: nat, sub: string): Perms {
    var list := SubsOf(p, id);
    if Contains(list, sub) then p else p.(subs := p.subs[id := list + [sub]])
  }

  /** The rules that start with '+' or '-'. */
  function ApplyCommandRule(t: Table, p: Perms, c: string): (Perms, Result)
    requires c != [] && (c[0] == '+' || c[0] == '-')
  {
    var plus := c[0] == '+';
    if |c| > 1 && c[1] == '@' then
      if Lower(c[2..]) in CATEGORIES then (SetCategory(t, p, Lower(c[2..]), plus), Ok) else (p, ENOENT)
    else
      var bar := IndexOf(c[1..], '|');
      if !plus || bar == |c[1..]| then
        var cmd := Find(t, c[1..]);
        if cmd.None? then (p, ENOENT) else (SetCommand(p, cmd.value.id, plus), Ok)
      else
        var cmd := Find(t, c[1..][..bar]);
        var sub := c[1..][bar + 1..];
        if cmd.None? then (p, ENOENT)
        else if sub == [] then (p, EINVAL)
        else if GetBit(p, cmd.value.id) then (p, EBUSY)
        else (SetBit(AddSub(p, cmd.value.id, sub), cmd.value.id, false), Ok)
  }

  // ----- authentication and keys

  function AddUnique(list: seq<string>, x: string): seq<string> {
    if x in list then list else list + [x]
  }

  function RemoveFirst(list: seq<string>, x: string): seq<string> {
    if list == [] then [] else if list[0] == x then list[1..] else [list[0]] + RemoveFirst(list[1..], x)
  }

  function ApplyPassword(a: Auth, op: string, hash: string -> string): (Auth, Result)
    requires op != []
  {
    var plain := op[0] == '>' || op[0] == '<';
    if !plain && !IsHash(op[1..]) then (a, EBADMSG)
    else
      var pass := if plain then hash(op[1..]) else op[1..];
      if op[0] == '>' || op[0] == '#' then
        (a.(passwords := AddUnique(a.passwords, pass), nopass := false), Ok)
      else if pass in a.passwords then (a.(passwords := RemoveFirst(a.passwords, pass)), Ok)
      else (a, ENODEV)
  }

  function ApplyPattern(a: Auth, op: string): (Auth, Result)
    requires op != []
  {
    if a.allkeys then (a, EEXIST)
    else if HasSpaces(op[1..]) then (a, EINVAL)
    else (a.(patterns := AddUnique(a.patterns, op[1..]), allkeys := false), Ok)
  }

  // ----- ACLSetUser

  function Keyword(u: User, k: string): Option<User> {
    var a, p := u.auth, u.perms;
    if k == "on" then Some(u.(auth := a.(enabled := true, disabled := false)))
    else if k == "off" then Some(u.(auth := a.(disabled := true, enabled := false)))
    else if k == "allkeys" || k == "~*" then Some(u.(auth := a.(allkeys := true, patterns := [])))
    else if k == "resetkeys" then Some(u.(auth := a.(allkeys := false, patterns := [])))
    else if k == "allcommands" || k == "+@all" then Some(u.(perms := Perms(AllBits(), true, map[])))
    else if k == "nocommands" || k == "-@all" then Some(u.(perms := Perms(NoBits(), false, map[])))
    else if k == "nopass" then Some(u.(auth := a.(nopass := true, passwords := [])))
    else if k == "resetpass" then Some(u.(auth := a.(nopass := false, passwords := [])))
    else None
  }

  /** One rule token. On an error the user is left as it was. */
  function SetUser(t: Table, u: User, op: string, hash: string -> string): (User, Result) {
    if op == [] then (u, Ok)
    else
      var c := CStr(op);
      var k := Keyword(u, Lower(c));
      if k.Some? then (k.value, Ok)
      else if op[0] == '>' || op[0] == '#' || op[0] == '<' || op[0] == '!' then
        var (a, r) := ApplyPassword(u.auth, op, hash);
        (u.(auth := a), r)
      else if op[0] == '~' then
        var (a, r) := ApplyPattern(u.auth, op);
        (u.(auth := a), r)
      else if c != [] && (c[0] == '+' || c[0] == '-') then
        var (p, r) := ApplyCommandRule(t, u.perms, c);
        (u.(perms := p), r)
      else if Lower(c) == "reset" then
        (User(Auth(false, true, false, [], false, []), Perms(NoBits(), false, map[])), Ok)
      else (u, EINVAL)
  }

  // ----- describing

  function CountBits(t: Table, p: Perms, category: string): (r: (nat, nat)) {
    if t == [] then (0, 0)
    else
      var (on, off) := CountBits(t[1..], p, category);
      if !InCategory(t[0], category) then (on, off)
      else if GetBit(p, t[0].id) then (on + 1, off) else (on, off + 1)
  }

  /** The category rules worth emitting, and the permissions they lead to. */
  function DescribeCategories(t: Table, p: Perms, additive: bool, cats: seq<string>, fake: Perms): (seq<string>, Perms)
    decreases cats
  {
    if cats == [] then ([], fake)
    else
      var (on, off) := CountBits(t, p, cats[0]);
      if (additive && on > off) || (!additive && off > on) then
        var (rest, q) := DescribeCategories(t, p, additive, cats[1..], SetCategory(t, fake, cats[0], additive));
        ([(if additive then "+@" else "-@") + cats[0]] + rest, q)
      else DescribeCategories(t, p, additive, cats[1..], fake)
  }

  function SubRuleText(name: string, sub: string): string {
    "+" + name + "|" + sub
  }

  function SubRules(name: string, subs: seq<string>): seq<string> {
    if subs == [] then [] else [SubRuleText(name, subs[0])] + SubRules(name, subs[1..])
  }

  /** The rules for one command: fix its bit, then list its subcommands. */
  function DescribeCommand(p: Perms, c: Cmd, fake: Perms): seq<string> {
    var on := GetBit(p, c.id);
    (if on != GetBit(fake, c.id) then [(if on then "+" else "-") + c.name] else []) +
    (if on then [] else SubRules(c.name, SubsOf(p, c.id)))
  }

  function DescribeCommands(t: Table, p: Perms, fake: Perms): (seq<string>, Perms)
    decreases t
  {
    if t == [] then ([], fake)
    else
      var (rest, q) := DescribeCommands(t[1..], p, SetBit(fake, t[0].id, GetBit(p, t[0].id)));
      (DescribeCommand(p, t[0], fake) + rest, q)
  }

  /** The emitted command rules, and the bitmap predicted along the way. */
  function DescribePerms(t: Table, p: Perms): (seq<string>, Perms) {
    var additive := !GetBit(p, FUTURE);
    var start := if additive then Perms(NoBits(), false, map[]) else Perms(AllBits(), true, map[]);
    var (cats, mid) := DescribeCategories(t, p, additive, CATEGORIES, start);
    var (cmds, end) := DescribeCommands(t, p, mid);
    ([if additive then "-@all" else "+@all"] + cats + cmds, end)
  }

  function Prefixed(mark: char, list: seq<string>): seq<string> {
    if list == [] then [] else [[mark] + list[0]] + Prefixed(mark, list[1..])
  }

  function DescribeAuth(a: Auth): seq<string> {
    (if a.enabled then ["on"] else []) +
    (if a.disabled then ["off"] else []) +
    (if a.nopass then ["nopass"] else []) +
    Prefixed('#', a.passwords) +
    (if a.allkeys then ["~*"] else Prefixed('~', a.patterns))
  }

  /** The rules of ACLDescribeUser, in order. */
  function Describe(t: Table, u: User): seq<string> {
    DescribeAuth(u.auth) + DescribePerms(t, u.perms).0
  }
}
