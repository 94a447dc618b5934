/** Replaying the described rules on a fresh user rebuilds the user. */
module AclRoundTrip {
  import opened Common
  import opened Acl

  // ----- reachable users

  ghost function Ids(t: Table): set<nat> {
    set c | c in t :: c.id
  }

  /** A command table the rules can name: distinct names and ids, no id in the reserved bit. */
  ghost predicate TableOk(t: Table) {
    && (forall c :: c in t ==>
          && c.name != [] && c.name[0] != '@' && c.id < FUTURE
          && forall i :: 0 <= i < |c.name| ==> c.name[i] != '|' && c.name[i] != '\0')
    && forall i, j :: 0 <= i < j < |t| ==> Lower(t[i].name) != Lower(t[j].name) && t[i].id != t[j].id
  }

  predicate SubOk(sub: string) {
    sub != [] && forall i :: 0 <= i < |sub| ==> sub[i] != '\0'
  }

  ghost predicate ListOk(list: seq<string>) {
    && list != []
    && (forall i :: 0 <= i < |list| ==> SubOk(list[i]))
    && forall i, j :: 0 <= i < j < |list| ==> Lower(list[i]) != Lower(list[j])
  }

  ghost predicate BitsOk(t: Table, bits: seq<bool>) {
    && |bits| == BITS
    && forall id: nat :: id < BITS && id !in Ids(t) ==> bits[id] == bits[FUTURE]
  }

  ghost predicate AllSet(bits: seq<bool>) {
    forall id :: 0 <= id < |bits| ==> bits[id]
  }

  /** Commands without an entry in the table follow the reserved bit, the flag means that every
      bit is set, and only commands whose bit is clear have subcommands. */
  ghost predicate PermsOk(t: Table, p: Perms) {
    && BitsOk(t, p.bits)
    && (p.allcommands ==> AllSet(p.bits))
    && forall id :: id in p.subs ==> id in Ids(t) && !GetBit(p, id) && ListOk(p.subs[id])
  }

  ghost predicate Distinct(list: seq<string>) {
    forall i, j :: 0 <= i < j < |list| ==> list[i] != list[j]
  }

  predicate PatternOk(s: string) {
    !HasSpaces(s) && s != "*"
  }

  ghost predicate AuthOk(a: Auth) {
    && a.enabled != a.disabled
    && (a.nopass ==> a.passwords == [])
    && (a.allkeys ==> a.patterns == [])
    && Distinct(a.passwords) && (forall x :: x in a.passwords ==> IsHash(x))
    && Distinct(a.patterns) && (forall x :: x in a.patterns ==> PatternOk(x))
  }

  ghost predicate UserOk(t: Table, u: User) {
    AuthOk(u.auth) && PermsOk(t, u.perms)
  }

  ghost predicate HashOk(hash: string -> string) {
    forall s :: IsHash(hash(s))
  }

  // ----- every rule keeps users well-formed

  lemma SetBitEffect(p: Perms, id: nat, value: bool)
    requires id < |p.bits|
    ensures var q := SetBit(p, id, value);
      && q.bits == p.bits[id := value] && q.subs == p.subs
      && q.allcommands == (p.allcommands && value)
  {
  }

  lemma BitsOkUpdate(t: Table, bits: seq<bool>, id: nat, value: bool)
    requires TableOk(t) && BitsOk(t, bits) && id in Ids(t)
    ensures id < FUTURE && BitsOk(t, bits[id := value])
  {
  }

  lemma SetCommandOk(t: Table, p: Perms, id: nat, value: bool)
    requires TableOk(t) && PermsOk(t, p) && id in Ids(t)
    ensures PermsOk(t, SetCommand(p, id, value))
  {
    BitsOkUpdate(t, p.bits, id, value);
    SetBitEffect(p, id, value);
  }

  lemma {:induction false} SetCategoryOk(t: Table, part: Table, p: Perms, category: string, value: bool)
    requires TableOk(t) && PermsOk(t, p) && forall c :: c in part ==> c in t
    ensures PermsOk(t, SetCategory(part, p, category, value))
    decreases part
  {
    if part != [] {
      var q := p;
      if !part[0].isModule && InCategory(part[0], category) {
        assert part[0].id in Ids(t);
        SetCommandOk(t, p, part[0].id, value);
        q := SetCommand(p, part[0].id, value);
      }
      SetCategoryOk(t, part[1..], q, category, value);
    }
  }

  lemma AddSubListOk(list: seq<string>, sub: string)
    requires (list == [] || ListOk(list)) && SubOk(sub) && !Contains(list, sub)
    ensures ListOk(list + [sub])
  {
  }

  lemma AddSubOk(t: Table, p: Perms, id: nat, sub: string)
    requires TableOk(t) && PermsOk(t, p) && id in Ids(t) && !GetBit(p, id) && SubOk(sub)
    ensures PermsOk(t, SetBit(AddSub(p, id, sub), id, false))
  {
    BitsOkUpdate(t, p.bits, id, false);
    var list := SubsOf(p, id);
    if !Contains(list, sub) { AddSubListOk(list, sub); }
    SetBitEffect(AddSub(p, id, sub), id, false);
  }

  lemma ApplyCommandRuleOk(t: Table, p: Perms, c: string)
    requires TableOk(t) && PermsOk(t, p) && c != [] && (c[0] == '+' || c[0] == '-')
    requires forall i :: 0 <= i < |c| ==> c[i] != '\0'
    ensures PermsOk(t, ApplyCommandRule(t, p, c).0)
  {
    hide PermsOk, TableOk, SetCategory, SetCommand, AddSub, SetBit, Lower;
    if |c| > 1 && c[1] == '@' {
      SetCategoryOk(t, t, p, Lower(c[2..]), c[0] == '+');
    } else {
      var bar := IndexOf(c[1..], '|');
      if c[0] == '-' || bar == |c[1..]| {
        var cmd := Find(t, c[1..]);
        if cmd.Some? {
          assert cmd.value.id in Ids(t);
          SetCommandOk(t, p, cmd.value.id, c[0] == '+');
        }
      } else {
        var cmd := Find(t, c[1..][..bar]);
        var sub := c[1..][bar + 1..];
        if cmd.Some? && sub != [] && !GetBit(p, cmd.value.id) {
          assert cmd.value.id in Ids(t);
          assert SubOk(sub);
          AddSubOk(t, p, cmd.value.id, sub);
        }
      }
    }
  }

  lemma AddUniqueDistinct(list: seq<string>, x: string)
    requires Distinct(list)
    ensures Distinct(AddUnique(list, x)) && forall y :: y in AddUnique(list, x) ==> y in list || y == x
  {
  }

  lemma DistinctCons(x: string, list: seq<string>)
    requires Distinct(list) && x !in list
    ensures Distinct([x] + list)
  {
    assert forall i :: 0 < i < |[x] + list| ==> ([x] + list)[i] == list[i - 1];
  }

  lemma {:induction false} RemoveFirstDistinct(list: seq<string>, x: string)
    requires Distinct(list)
    ensures Distinct(RemoveFirst(list, x)) && forall y :: y in RemoveFirst(list, x) ==> y in list
  {
    if list != [] && list[0] != x {
      RemoveFirstDistinct(list[1..], x);
      DistinctCons(list[0], RemoveFirst(list[1..], x));
    }
  }

  lemma ApplyPasswordOk(a: Auth, op: string, hash: string -> string)
    requires AuthOk(a) && op != [] && HashOk(hash)
    ensures AuthOk(ApplyPassword(a, op, hash).0)
  {
    var pass := if op[0] == '>' || op[0] == '<' then hash(op[1..]) else op[1..];
    AddUniqueDistinct(a.passwords, pass);
    RemoveFirstDistinct(a.passwords, pass);
  }

  lemma ApplyPatternOk(a: Auth, op: string)
    requires AuthOk(a) && op != [] && op[0] == '~' && Lower(CStr(op)) != "~*"
    ensures AuthOk(ApplyPattern(a, op).0)
  {
    AddUniqueDistinct(a.patterns, op[1..]);
    StarIsKeyword();
    assert op == ['~'] + op[1..];
  }

  lemma StarIsKeyword()
    ensures Lower(CStr("~*")) == "~*"
  {
    CStrIsWhole("~*");
    assert Lower("~*") == "~*";
  }

  lemma {:induction false} CStrIsWhole(s: string)
    requires forall i :: 0 <= i < |s| ==> s[i] != '\0'
    ensures CStr(s) == s
  {
    if s != [] {
      CStrIsWhole(s[1..]);
      assert s == [s[0]] + s[1..];
    }
  }

  lemma KeywordOk(t: Table, u: User, k: string)
    requires UserOk(t, u)
    ensures Keyword(u, k).Some? ==> UserOk(t, Keyword(u, k).value)
  {
    AllOrNoneOk(t);
    hide PermsOk, AllBits, NoBits;
  }

  lemma AllOrNoneOk(t: Table)
    ensures PermsOk(t, Perms(AllBits(), true, map[])) && PermsOk(t, Perms(NoBits(), false, map[]))
  {
  }

  lemma SetUserKeepsOk(t: Table, u: User, op: string, hash: string -> string)
    requires TableOk(t) && UserOk(t, u) && HashOk(hash)
    ensures UserOk(t, SetUser(t, u, op, hash).0)
  {
    if op != [] {
      var c := CStr(op);
      KeywordOk(t, u, Lower(c));
      if Keyword(u, Lower(c)).None? {
        if op[0] == '>' || op[0] == '#' || op[0] == '<' || op[0] == '!' {
          ApplyPasswordOk(u.auth, op, hash);
        } else if op[0] == '~' {
          ApplyPatternOk(u.auth, op);
        } else if c != [] && (c[0] == '+' || c[0] == '-') {
          ApplyCommandRuleOk(t, u.perms, c);
        }
      }
    }
  }

  /** The user after a sequence of rules, each of which may fail. */
  function Reached(t: Table, ops: seq<string>, hash: string -> string): User {
    if ops == [] then Fresh()
    else SetUser(t, Reached(t, ops[..|ops| - 1], hash), ops[|ops| - 1], hash).0
  }

  lemma {:induction false} ReachedIsOk(t: Table, ops: seq<string>, hash: string -> string)
    requires TableOk(t) && HashOk(hash)
    ensures UserOk(t, Reached(t, ops, hash))
  {
    if ops != [] {
      ReachedIsOk(t, ops[..|ops| - 1], hash);
      SetUserKeepsOk(t, Reached(t, ops[..|ops| - 1], hash), ops[|ops| - 1], hash);
    }
  }

  // ----- replaying rules

  /** Every rule of `ops` succeeds and together they lead from `u` to `v`. */
  predicate Replays(t: Table, u: User, ops: seq<string>, hash: string -> string, v: User)
    decreases ops
  {
    if ops == [] then u == v
    else
      var (w, r) := SetUser(t, u, ops[0], hash);
      r == Ok && Replays(t, w, ops[1..], hash, v)
  }

  lemma {:induction false} ReplaysAppend(t: Table, u: User, a: seq<string>, v: User, b: seq<string>, w: User,
                                         hash: string -> string)
    requires Replays(t, u, a, hash, v) && Replays(t, v, b, hash, w)
    ensures Replays(t, u, a + b, hash, w)
    decreases a
  {
    if a == [] {
      assert a + b == b;
    } else {
      assert (a + b)[1..] == a[1..] + b;
      ReplaysAppend(t, SetUser(t, u, a[0], hash).0, a[1..], v, b, w, hash);
    }
  }

  lemma ReplaysOne(t: Table, u: User, op: string, hash: string -> string, v: User)
    requires SetUser(t, u, op, hash) == (v, Ok)
    ensures Replays(t, u, [op], hash, v)
  {
    assert [op][1..] == [];
  }

  lemma KeywordRule(t: Table, u: User, k: string, hash: string -> string)
    requires k != [] && Lower(k) == k && (forall i :: 0 <= i < |k| ==> k[i] != '\0') && Keyword(u, k).Some?
    ensures Replays(t, u, [k], hash, Keyword(u, k).value)
  {
    CStrIsWhole(k);
    ReplaysOne(t, u, k, hash, Keyword(u, k).value);
  }

  // ----- passwords and patterns

  lemma NotKeyword(u: User, k: string)
    requires k == [] || k[0] !in ['o', 'a', '~', 'r', '+', 'n', '-']
    ensures Keyword(u, k).None?
  {
  }

  lemma PasswordRule(t: Table, u: User, pass: string, hash: string -> string)
    requires IsHash(pass) && pass !in u.auth.passwords
    ensures Replays(t, u, ["#" + pass], hash,
                    u.(auth := u.auth.(passwords := u.auth.passwords + [pass], nopass := false)))
  {
    var op := "#" + pass;
    assert op[1..] == pass;
    CStrIsWhole(op);
    assert Lower(op)[0] == '#';
    NotKeyword(u, Lower(op));
    ReplaysOne(t, u, op, hash, u.(auth := u.auth.(passwords := u.auth.passwords + [pass], nopass := false)));
  }

  lemma PatternRule(t: Table, u: User, pat: string, hash: string -> string)
    requires PatternOk(pat) && pat !in u.auth.patterns && !u.auth.allkeys
    ensures Replays(t, u, ["~" + pat], hash, u.(auth := u.auth.(patterns := u.auth.patterns + [pat])))
  {
    var op := "~" + pat;
    assert op[1..] == pat;
    assert forall i :: 0 <= i < |op| ==> op[i] != '\0' by {
      assert forall i :: 0 <= i < |pat| ==> pat[i] != '\0';
    }
    CStrIsWhole(op);
    assert Lower(op)[0] == '~';
    assert |pat| == 1 ==> Lower(op)[1] == LowerChar(pat[0]) && pat == [pat[0]];
    assert Lower(op) != "~*";
    ReplaysOne(t, u, op, hash, u.(auth := u.auth.(patterns := u.auth.patterns + [pat])));
  }

  lemma {:induction false} PasswordRules(t: Table, u: User, list: seq<string>, hash: string -> string)
    requires Distinct(u.auth.passwords + list) && forall x :: x in list ==> IsHash(x)
    ensures Replays(t, u, Prefixed('#', list), hash,
                    if list == [] then u
                    else u.(auth := u.auth.(passwords := u.auth.passwords + list, nopass := false)))
    decreases list
  {
    if list != [] {
      var v := u.(auth := u.auth.(passwords := u.auth.passwords + [list[0]], nopass := false));
      assert list[0] !in u.auth.passwords by { FirstIsNew(u.auth.passwords, list); }
      PasswordRule(t, u, list[0], hash);
      assert v.auth.passwords + list[1..] == u.auth.passwords + list;
      PasswordRules(t, v, list[1..], hash);
      var w := u.(auth := u.auth.(passwords := u.auth.passwords + list, nopass := false));
      ReplaysAppend(t, u, ["#" + list[0]], v, Prefixed('#', list[1..]), w, hash);
    }
  }

  lemma FirstIsNew(a: seq<string>, b: seq<string>)
    requires Distinct(a + b) && b != []
    ensures b[0] !in a
  {
    assert (a + b)[|a|] == b[0];
    assert forall i :: 0 <= i < |a| ==> (a + b)[i] == a[i];
  }

  lemma {:induction false} PatternRules(t: Table, u: User, list: seq<string>, hash: string -> string)
    requires Distinct(u.auth.patterns + list) && (forall x :: x in list ==> PatternOk(x)) && !u.auth.allkeys
    ensures Replays(t, u, Prefixed('~', list), hash, u.(auth := u.auth.(patterns := u.auth.patterns + list)))
    decreases list
  {
    var w := u.(auth := u.auth.(patterns := u.auth.patterns + list));
    if list == [] {
      assert u.auth.patterns + list == u.auth.patterns;
    } else {
      var v := u.(auth := u.auth.(patterns := u.auth.patterns + [list[0]]));
      FirstIsNew(u.auth.patterns, list);
      PatternRule(t, u, list[0], hash);
      assert v.auth.patterns + list[1..] == u.auth.patterns + list;
      PatternRules(t, v, list[1..], hash);
      ReplaysAppend(t, u, ["~" + list[0]], v, Prefixed('~', list[1..]), w, hash);
    }
  }

  lemma SwitchRule(t: Table, u: User, enabled: bool, hash: string -> string)
    ensures Replays(t, u, [if enabled then "on" else "off"], hash,
                    u.(auth := u.auth.(enabled := enabled, disabled := !enabled)))
  {
    assert Lower("on") == "on" && Lower("off") == "off";
    hide Replays, Lower;
    KeywordRule(t, u, if enabled then "on" else "off", hash);
  }

  lemma NopassRule(t: Table, u: User, hash: string -> string)
    ensures Replays(t, u, ["nopass"], hash, u.(auth := u.auth.(nopass := true, passwords := [])))
  {
    assert Lower("nopass") == "nopass";
    hide Replays, Lower;
    KeywordRule(t, u, "nopass", hash);
  }

  lemma FlagRules(t: Table, a: Auth, p: Perms, hash: string -> string)
    requires a.enabled != a.disabled
    ensures Replays(t, User(Fresh().auth, p),
                    (if a.enabled then ["on"] else []) + (if a.disabled then ["off"] else []) +
                    (if a.nopass then ["nopass"] else []),
                    hash, User(Auth(a.enabled, a.disabled, a.nopass, [], false, []), p))
  {
    hide Replays;
    var u := User(Fresh().auth, p);
    var word := if a.enabled then "on" else "off";
    var v := User(Auth(a.enabled, a.disabled, false, [], false, []), p);
    SwitchRule(t, u, a.enabled, hash);
    assert (if a.enabled then ["on"] else []) + (if a.disabled then ["off"] else []) == [word];
    if a.nopass {
      NopassRule(t, v, hash);
      ReplaysAppend(t, u, [word], v, ["nopass"], v.(auth := v.auth.(nopass := true)), hash);
    } else {
      assert [word] + [] == [word];
    }
  }

  lemma AuthRules(t: Table, a: Auth, p: Perms, hash: string -> string)
    requires AuthOk(a)
    ensures Replays(t, User(Fresh().auth, p), DescribeAuth(a), hash, User(a, p))
  {
    var u0 := User(Fresh().auth, p);
    var u1 := User(Auth(a.enabled, a.disabled, a.nopass, [], false, []), p);
    var u2 := User(Auth(a.enabled, a.disabled, a.nopass, a.passwords, false, []), p);
    var flags := (if a.enabled then ["on"] else []) + (if a.disabled then ["off"] else [])
      + (if a.nopass then ["nopass"] else []);
    var keys := if a.allkeys then ["~*"] else Prefixed('~', a.patterns);
    FlagRules(t, a, p, hash);
    assert [] + a.passwords == a.passwords && [] + a.patterns == a.patterns;
    PasswordRules(t, u1, a.passwords, hash);
    ReplaysAppend(t, u0, flags, u1, Prefixed('#', a.passwords), u2, hash);
    if a.allkeys {
      assert Lower("~*") == "~*";
      KeywordRule(t, u2, "~*", hash);
    } else {
      PatternRules(t, u2, a.patterns, hash);
    }
    ReplaysAppend(t, u0, flags + Prefixed('#', a.passwords), u2, keys, User(a, p), hash);
  }

  // ----- command rules

  predicate Letters(s: string) {
    forall k :: 0 <= k < |s| ==> 'a' <= s[k] <= 'z'
  }

  lemma CategoriesAreLetters()
    ensures forall i :: 0 <= i < |CATEGORIES| ==> Letters(CATEGORIES[i]) && CATEGORIES[i] != "all"
  {
    assert Letters("keyspace") && Letters("read") && Letters("write") && Letters("set") && Letters("sortedset");
    assert Letters("list") && Letters("hash") && Letters("string") && Letters("bitmap") && Letters("hyperloglog");
    assert Letters("geo") && Letters("stream") && Letters("pubsub") && Letters("admin") && Letters("fast");
    assert Letters("slow") && Letters("blocking") && Letters("dangerous") && Letters("connection");
    assert Letters("transaction") && Letters("scripting");
    hide Letters;
  }

  lemma CategoryIsLower(category: string)
    requires category in CATEGORIES
    ensures Lower(category) == category && category != "all" && Letters(category)
  {
    hide Letters;
    CategoriesAreLetters();
    var i :| 0 <= i < |CATEGORIES| && CATEGORIES[i] == category;
    LettersAreLower(category);
  }

  lemma LettersAreLower(s: string)
    requires Letters(s)
    ensures Lower(s) == s
  {
  }

  lemma MarkedIsWhole(mark: char, category: string)
    requires (mark == '+' || mark == '-') && Letters(category)
    ensures CStr([mark, '@'] + category) == [mark, '@'] + category
  {
    CStrIsWhole([mark, '@'] + category);
  }

  lemma CategoryRule(t: Table, u: User, category: string, plus: bool, hash: string -> string)
    requires category in CATEGORIES
    ensures Replays(t, u, [(if plus then "+@" else "-@") + category], hash,
                    u.(perms := SetCategory(t, u.perms, category, plus)))
  {
    hide Keyword, SetCategory, Lower, CStr, Letters, ApplyPassword, ApplyPattern;
    var op := (if plus then "+@" else "-@") + category;
    CategoryIsLower(category);
    CategoryNotKeyword(u, op[0], category);
    assert op == [op[0], '@'] + category;
    MarkedIsWhole(op[0], category);
    assert op[2..] == category;
    ReplaysOne(t, u, op, hash, u.(perms := SetCategory(t, u.perms, category, plus)));
  }

  lemma CategoryNotKeyword(u: User, mark: char, category: string)
    requires (mark == '+' || mark == '-') && Lower(category) != "all"
    ensures Keyword(u, Lower([mark, '@'] + category)).None?
  {
    var k := Lower([mark, '@'] + category);
    assert k[0] == mark && k[1] == '@' && k[2..] == Lower(category);
    assert "+@all"[2..] == "all" && "-@all"[2..] == "all";
  }

  lemma FindByName(t: Table, c: Cmd)
    requires TableOk(t) && c in t
    ensures Find(t, c.name) == Some(c)
  {
    var i :| 0 <= i < |t| && t[i] == c;
    var r := Find(t, c.name);
    if r.Some? {
      var j :| 0 <= j < |t| && t[j] == r.value;
      assert i == j;
    }
  }

  lemma PlusMinusNotKeyword(u: User, mark: char, name: string, rest: string)
    requires mark == '+' || mark == '-'
    requires name != [] && name[0] != '@'
    ensures Keyword(u, Lower([mark] + name + rest)).None?
  {
    var k := Lower([mark] + name + rest);
    assert k[0] == mark && k[1] == LowerChar(name[0]);
  }

  lemma CommandRule(t: Table, u: User, c: Cmd, plus: bool, hash: string -> string)
    requires TableOk(t) && c in t
    ensures Replays(t, u, [(if plus then "+" else "-") + c.name], hash, u.(perms := SetCommand(u.perms, c.id, plus)))
  {
    var mark := if plus then '+' else '-';
    var op := [mark] + c.name;
    CStrIsWhole(op);
    assert op[1..] == c.name;
    assert op + [] == op;
    PlusMinusNotKeyword(u, mark, c.name, []);
    FindByName(t, c);
    ReplaysOne(t, u, op, hash, u.(perms := SetCommand(u.perms, c.id, plus)));
  }

  lemma SubRuleShape(name: string, sub: string)
    requires name != [] && SubOk(sub) && forall i :: 0 <= i < |name| ==> name[i] != '|' && name[i] != '\0'
    ensures var op := SubRuleText(name, sub);
      && |op| > 1 && op[0] == '+' && op[1] == name[0] && (forall i :: 0 <= i < |op| ==> op[i] != '\0')
      && IndexOf(op[1..], '|') == |name| < |op[1..]|
      && op[1..][..|name|] == name && op[1..][|name| + 1..] == sub
  {
    var op := SubRuleText(name, sub);
    var body := op[1..];
    assert body == name + ("|" + sub);
    assert body[|name|] == '|';
    assert forall k :: 0 <= k < |name| ==> body[k] == name[k];
  }

  lemma SubRuleParses(t: Table, p: Perms, c: Cmd, sub: string)
    requires TableOk(t) && c in t && SubOk(sub) && !GetBit(p, c.id)
    ensures SubRuleText(c.name, sub) != [] && SubRuleText(c.name, sub)[0] == '+'
    ensures ApplyCommandRule(t, p, SubRuleText(c.name, sub)) == (SetBit(AddSub(p, c.id, sub), c.id, false), Ok)
  {
    SubRuleShape(c.name, sub);
    hide SubRuleText;
    FindByName(t, c);
  }

  lemma SubRuleIsRule(u: User, name: string, sub: string)
    requires name != [] && name[0] != '@' && SubOk(sub)
    requires forall i :: 0 <= i < |name| ==> name[i] != '|' && name[i] != '\0'
    ensures var op := SubRuleText(name, sub); CStr(op) == op && Keyword(u, Lower(op)).None?
  {
    SubRuleShape(name, sub);
    hide SubRuleText;
    var op := SubRuleText(name, sub);
    CStrIsWhole(op);
    assert Lower(op)[0] == '+' && Lower(op)[1] == LowerChar(name[0]);
  }

  lemma SubRule(t: Table, u: User, c: Cmd, sub: string, hash: string -> string)
    requires TableOk(t) && c in t && SubOk(sub) && !GetBit(u.perms, c.id)
    ensures Replays(t, u, [SubRuleText(c.name, sub)], hash,
                    u.(perms := SetBit(AddSub(u.perms, c.id, sub), c.id, false)))
  {
    hide ApplyCommandRule, Keyword, CStr, Lower, SetBit, AddSub, SubRuleText, ApplyPassword, ApplyPattern;
    SubRuleIsRule(u, c.name, sub);
    SubRuleParses(t, u.perms, c, sub);
    ReplaysOne(t, u, SubRuleText(c.name, sub), hash, u.(perms := SetBit(AddSub(u.perms, c.id, sub), c.id, false)));
  }

  lemma {:induction false} CategoryRules(t: Table, p: Perms, additive: bool, cats: seq<string>, fake: Perms, a: Auth,
                                         hash: string -> string)
    requires forall x :: x in cats ==> x in CATEGORIES
    ensures var (rules, q) := DescribeCategories(t, p, additive, cats, fake);
      Replays(t, User(a, fake), rules, hash, User(a, q))
    decreases cats
  {
    if cats != [] {
      var (on, off) := CountBits(t, p, cats[0]);
      if (additive && on > off) || (!additive && off > on) {
        var rule := (if additive then "+@" else "-@") + cats[0];
        var mid := SetCategory(t, fake, cats[0], additive);
        CategoryRule(t, User(a, fake), cats[0], additive, hash);
        CategoryRules(t, p, additive, cats[1..], mid, a, hash);
        var (rest, q) := DescribeCategories(t, p, additive, cats[1..], mid);
        ReplaysAppend(t, User(a, fake), [rule], User(a, mid), rest, User(a, q), hash);
      } else {
        CategoryRules(t, p, additive, cats[1..], fake, a, hash);
      }
    }
  }

  // ----- rebuilding one command after the other

  function AddSubs(r: Perms, id: nat, list: seq<string>): Perms
    decreases list
  {
    if list == [] then r else AddSubs(SetBit(AddSub(r, id, list[0]), id, false), id, list[1..])
  }

  function RebuildOne(p: Perms, c: Cmd, r: Perms): Perms {
    var on := GetBit(p, c.id);
    var q := if on != GetBit(r, c.id) then SetCommand(r, c.id, on) else r;
    if on then q else AddSubs(q, c.id, SubsOf(p, c.id))
  }

  function Rebuild(part: Table, p: Perms, r: Perms): Perms
    decreases part
  {
    if part == [] then r else Rebuild(part[1..], p, RebuildOne(p, part[0], r))
  }

  /** Adding the subcommands of a list to a command that has only those of `done` so far. */
  lemma {:induction false} AddSubsEffect(r: Perms, id: nat, done: seq<string>, list: seq<string>)
    requires id < |r.bits| && !r.bits[id]
    requires SubsOf(r, id) == done && (done == [] <==> id !in r.subs)
    requires forall i, j :: 0 <= i < j < |done + list| ==> Lower((done + list)[i]) != Lower((done + list)[j])
    ensures var q := AddSubs(r, id, list);
      && q.bits == r.bits && q.subs == if list == [] then r.subs else r.subs[id := done + list]
    decreases list
  {
    if list != [] {
      assert (done + list)[|done|] == list[0];
      assert forall i :: 0 <= i < |done| ==> (done + list)[i] == done[i];
      var q := SetBit(AddSub(r, id, list[0]), id, false);
      SetBitEffect(AddSub(r, id, list[0]), id, false);
      assert q.bits == r.bits;
      assert q.subs == r.subs[id := done + [list[0]]];
      assert done + [list[0]] + list[1..] == done + list;
      assert |list| == 1 ==> done + [list[0]] == done + list;
      AddSubsEffect(q, id, done + [list[0]], list[1..]);
    }
  }

  lemma RebuildOneEffect(t: Table, p: Perms, c: Cmd, r: Perms)
    requires TableOk(t) && c in t && PermsOk(t, p) && |r.bits| == BITS && c.id !in r.subs
    ensures var q := RebuildOne(p, c, r);
      && q.bits == r.bits[c.id := p.bits[c.id]]
      && q.subs == if c.id in p.subs then r.subs[c.id := p.subs[c.id]] else r.subs
  {
    var on := GetBit(p, c.id);
    var q := if on != GetBit(r, c.id) then SetCommand(r, c.id, on) else r;
    SetBitEffect(r, c.id, on);
    assert q.bits == r.bits[c.id := on];
    assert r.subs - {c.id} == r.subs;
    assert q.subs == r.subs;
    if !on {
      var list := SubsOf(p, c.id);
      assert [] + list == list;
      AddSubsEffect(q, c.id, [], list);
    }
  }

  lemma TableTail(t: Table)
    requires TableOk(t) && t != []
    ensures TableOk(t[1..]) && Ids(t) == {t[0].id} + Ids(t[1..]) && t[0].id !in Ids(t[1..])
  {
    assert t == [t[0]] + t[1..];
  }

  /** `q` is `r` with the bits and subcommands that `p` has for the commands `ids`. */
  ghost predicate Takes(ids: set<nat>, p: Perms, r: Perms, q: Perms)
    requires |p.bits| == |r.bits| == BITS
  {
    && |q.bits| == BITS
    && (forall id: nat :: id < BITS ==> q.bits[id] == if id in ids then p.bits[id] else r.bits[id])
    && (forall id :: id in q.subs <==> if id in ids then id in p.subs else id in r.subs)
    && (forall id :: id in q.subs ==> q.subs[id] == if id in ids then p.subs[id] else r.subs[id])
  }

  lemma TakesMore(id: nat, ids: set<nat>, p: Perms, r: Perms, r1: Perms, q: Perms)
    requires |p.bits| == |r.bits| == |r1.bits| == BITS && id !in ids
    requires Takes({id}, p, r, r1) && Takes(ids, p, r1, q)
    ensures Takes({id} + ids, p, r, q)
  {
  }

  lemma RebuildOneTakes(t: Table, p: Perms, c: Cmd, r: Perms)
    requires TableOk(t) && c in t && PermsOk(t, p) && |r.bits| == BITS && c.id !in r.subs
    ensures Takes({c.id}, p, r, RebuildOne(p, c, r))
  {
    RebuildOneEffect(t, p, c, r);
    hide RebuildOne, TableOk, PermsOk;
  }

  /** Rebuilding sets the bits and subcommands of the commands gone through, and no others. */
  lemma {:induction false} RebuildEffect(t: Table, part: Table, p: Perms, r: Perms)
    requires TableOk(t) && TableOk(part) && (forall c :: c in part ==> c in t && c.id !in r.subs)
    requires PermsOk(t, p) && |r.bits| == BITS
    ensures Takes(Ids(part), p, r, Rebuild(part, p, r))
    decreases part
  {
    if part != [] {
      var c := part[0];
      TableTail(part);
      RebuildOneTakes(t, p, c, r);
      var r1 := RebuildOne(p, c, r);
      assert forall d :: d in part[1..] ==> d in t && d.id in Ids(part[1..]);
      assert |r1.bits| == BITS && forall d :: d in part[1..] ==> d.id !in r1.subs;
      hide PermsOk, TableOk, Ids, RebuildOne, Takes;
      RebuildEffect(t, part[1..], p, r1);
      TakesMore(c.id, Ids(part[1..]), p, r, r1, Rebuild(part, p, r));
    }
  }

  lemma {:induction false} SubRulesReplay(t: Table, c: Cmd, list: seq<string>, r: Perms, a: Auth,
                                          hash: string -> string)
    requires TableOk(t) && c in t && (forall i :: 0 <= i < |list| ==> SubOk(list[i]))
    requires |r.bits| == BITS && !r.bits[c.id]
    ensures Replays(t, User(a, r), SubRules(c.name, list), hash, User(a, AddSubs(r, c.id, list)))
    decreases list
  {
    if list != [] {
      var q := SetBit(AddSub(r, c.id, list[0]), c.id, false);
      SubRule(t, User(a, r), c, list[0], hash);
      SetBitEffect(AddSub(r, c.id, list[0]), c.id, false);
      SubRulesReplay(t, c, list[1..], q, a, hash);
      ReplaysAppend(t, User(a, r), [SubRuleText(c.name, list[0])], User(a, q),
                    SubRules(c.name, list[1..]), User(a, AddSubs(r, c.id, list)), hash);
    }
  }

  lemma CommandReplay(t: Table, p: Perms, c: Cmd, fake: Perms, r: Perms, a: Auth, hash: string -> string)
    requires TableOk(t) && c in t && PermsOk(t, p) && r.bits == fake.bits && |r.bits| == BITS
    ensures Replays(t, User(a, r), DescribeCommand(p, c, fake), hash, User(a, RebuildOne(p, c, r)))
  {
    var on := GetBit(p, c.id);
    var fix := if on != GetBit(fake, c.id) then [(if on then "+" else "-") + c.name] else [];
    var q := if on != GetBit(r, c.id) then SetCommand(r, c.id, on) else r;
    SetBitEffect(r, c.id, on);
    CommandRule(t, User(a, r), c, on, hash);
    assert Replays(t, User(a, r), fix, hash, User(a, q));
    if on {
      assert fix + [] == fix;
    } else {
      var list := SubsOf(p, c.id);
      SubRulesReplay(t, c, list, q, a, hash);
      ReplaysAppend(t, User(a, r), fix, User(a, q), SubRules(c.name, list), User(a, AddSubs(q, c.id, list)), hash);
    }
  }

  lemma {:induction false} CommandRules(t: Table, part: Table, p: Perms, fake: Perms, r: Perms, a: Auth,
                                        hash: string -> string)
    requires TableOk(t) && TableOk(part) && (forall c :: c in part ==> c in t && c.id !in r.subs)
    requires PermsOk(t, p) && r.bits == fake.bits && |r.bits| == BITS
    ensures var (rules, q) := DescribeCommands(part, p, fake);
      && Replays(t, User(a, r), rules, hash, User(a, Rebuild(part, p, r)))
      && q.bits == Rebuild(part, p, r).bits
    decreases part
  {
    if part != [] {
      var c := part[0];
      var fake1 := SetBit(fake, c.id, GetBit(p, c.id));
      var r1 := RebuildOne(p, c, r);
      CommandReplay(t, p, c, fake, r, a, hash);
      RebuildOneEffect(t, p, c, r);
      SetBitEffect(fake, c.id, GetBit(p, c.id));
      assert forall d :: d in part[1..] ==> d in t && d.id != c.id && d.id !in r1.subs;
      CommandRules(t, part[1..], p, fake1, r1, a, hash);
      var (rest, _) := DescribeCommands(part[1..], p, fake1);
      ReplaysAppend(t, User(a, r), DescribeCommand(p, c, fake), User(a, r1), rest, User(a, Rebuild(part, p, r)), hash);
    }
  }

  // ----- the whole description

  lemma {:induction false} SetCategoryLocal(t: Table, part: Table, p: Perms, category: string, value: bool)
    requires TableOk(t) && (forall c :: c in part ==> c in t) && |p.bits| == BITS
    ensures var q := SetCategory(part, p, category, value);
      && |q.bits| == BITS && (p.subs == map[] ==> q.subs == map[])
      && forall id: nat :: id < BITS && id !in Ids(t) ==> q.bits[id] == p.bits[id]
    decreases part
  {
    if part != [] {
      var q := p;
      if !part[0].isModule && InCategory(part[0], category) {
        assert part[0].id in Ids(t);
        SetBitEffect(p, part[0].id, value);
        q := SetCommand(p, part[0].id, value);
      }
      SetCategoryLocal(t, part[1..], q, category, value);
    }
  }

  lemma {:induction false} DescribeCategoriesLocal(t: Table, p: Perms, additive: bool, cats: seq<string>, fake: Perms)
    requires TableOk(t) && |fake.bits| == BITS && fake.subs == map[]
    ensures var q := DescribeCategories(t, p, additive, cats, fake).1;
      && |q.bits| == BITS && q.subs == map[]
      && forall id: nat :: id < BITS && id !in Ids(t) ==> q.bits[id] == fake.bits[id]
    decreases cats
  {
    if cats != [] {
      var mid := SetCategory(t, fake, cats[0], additive);
      SetCategoryLocal(t, t, fake, cats[0], additive);
      DescribeCategoriesLocal(t, p, additive, cats[1..], mid);
      DescribeCategoriesLocal(t, p, additive, cats[1..], fake);
    }
  }

  function StartPerms(additive: bool): Perms {
    if additive then Perms(NoBits(), false, map[]) else Perms(AllBits(), true, map[])
  }

  /** The permissions that replaying the description of `p` leads to. */
  function Rebuilt(t: Table, p: Perms): Perms {
    var additive := !GetBit(p, FUTURE);
    Rebuild(t, p, DescribeCategories(t, p, additive, CATEGORIES, StartPerms(additive)).1)
  }

  lemma StartRule(t: Table, a: Auth, r: Perms, additive: bool, hash: string -> string)
    ensures Replays(t, User(a, r), [if additive then "-@all" else "+@all"], hash, User(a, StartPerms(additive)))
  {
    assert Lower("-@all") == "-@all" && Lower("+@all") == "+@all";
    hide Replays, Lower;
    KeywordRule(t, User(a, r), if additive then "-@all" else "+@all", hash);
  }

  lemma PermsReplay(t: Table, p: Perms, a: Auth, r: Perms, hash: string -> string)
    requires TableOk(t) && PermsOk(t, p)
    ensures Replays(t, User(a, r), DescribePerms(t, p).0, hash, User(a, Rebuilt(t, p)))
    ensures DescribePerms(t, p).1.bits == Rebuilt(t, p).bits
  {
    hide Replays, DescribeCategories, DescribeCommands, Rebuild, TableOk, PermsOk, NoBits, AllBits;
    var additive := !GetBit(p, FUTURE);
    var word := if additive then "-@all" else "+@all";
    var start := StartPerms(additive);
    StartRule(t, a, r, additive, hash);
    CategoryRules(t, p, additive, CATEGORIES, start, a, hash);
    StartAgrees(t, p);
    DescribeCategoriesLocal(t, p, additive, CATEGORIES, start);
    var (cats, mid) := DescribeCategories(t, p, additive, CATEGORIES, start);
    ReplaysAppend(t, User(a, r), [word], User(a, start), cats, User(a, mid), hash);
    CommandRules(t, t, p, mid, mid, a, hash);
    var (cmds, _) := DescribeCommands(t, p, mid);
    ReplaysAppend(t, User(a, r), [word] + cats, User(a, mid), cmds, User(a, Rebuilt(t, p)), hash);
  }

  lemma StartAgrees(t: Table, p: Perms)
    requires TableOk(t) && PermsOk(t, p)
    ensures var start := StartPerms(!GetBit(p, FUTURE));
      && |start.bits| == BITS && start.subs == map[]
      && forall id: nat :: id < BITS && id !in Ids(t) ==> p.bits[id] == start.bits[id]
  {
    assert FUTURE !in Ids(t);
  }

  /** The bitmap and the subcommand lists come back. */
  lemma RebuiltPerms(t: Table, p: Perms)
    requires TableOk(t) && PermsOk(t, p)
    ensures Rebuilt(t, p).bits == p.bits && Rebuilt(t, p).subs == p.subs
  {
    hide DescribeCategories, Rebuild, TableOk, Ids, StartPerms;
    var additive := !GetBit(p, FUTURE);
    StartAgrees(t, p);
    DescribeCategoriesLocal(t, p, additive, CATEGORIES, StartPerms(additive));
    var mid := DescribeCategories(t, p, additive, CATEGORIES, StartPerms(additive)).1;
    RebuildEffect(t, t, p, mid);
  }

  /** The check at the end of ACLDescribeUserCommandRules never fails. */
  lemma DescribeNeverPanics(t: Table, ops: seq<string>, hash: string -> string)
    requires TableOk(t) && HashOk(hash)
    ensures var p := Reached(t, ops, hash).perms; DescribePerms(t, p).1.bits == p.bits
  {
    ReachedIsOk(t, ops, hash);
    var u := Reached(t, ops, hash);
    PermsReplay(t, u.perms, u.auth, u.perms, hash);
    RebuiltPerms(t, u.perms);
  }

  // ----- the flag that skips the bitmap test

  lemma {:induction false} ReplaysKeepsOk(t: Table, u: User, ops: seq<string>, hash: string -> string, v: User)
    requires TableOk(t) && HashOk(hash) && UserOk(t, u) && Replays(t, u, ops, hash, v)
    ensures UserOk(t, v)
    decreases ops
  {
    if ops != [] {
      SetUserKeepsOk(t, u, ops[0], hash);
      ReplaysKeepsOk(t, SetUser(t, u, ops[0], hash).0, ops[1..], hash, v);
    }
  }

  lemma {:induction false} NoneOff(t: Table, p: Perms, category: string)
    requires AllSet(p.bits) && forall c :: c in t ==> c.id < |p.bits|
    ensures CountBits(t, p, category).1 == 0
  {
    if t != [] { NoneOff(t[1..], p, category); }
  }

  lemma {:induction false} NoCategoryRules(t: Table, p: Perms, cats: seq<string>, fake: Perms)
    requires AllSet(p.bits) && forall c :: c in t ==> c.id < |p.bits|
    ensures DescribeCategories(t, p, false, cats, fake) == ([], fake)
    decreases cats
  {
    if cats != [] {
      NoneOff(t, p, cats[0]);
      NoCategoryRules(t, p, cats[1..], fake);
    }
  }

  lemma {:induction false} NothingToRebuild(part: Table, p: Perms, r: Perms)
    requires AllSet(p.bits) && AllSet(r.bits) && forall c :: c in part ==> c.id < |p.bits| == |r.bits|
    ensures Rebuild(part, p, r) == r
    decreases part
  {
    if part != [] { NothingToRebuild(part[1..], p, r); }
  }

  /** The replayed flag is set exactly when every bit is. */
  lemma RebuiltFlag(t: Table, p: Perms, a: Auth, hash: string -> string)
    requires TableOk(t) && HashOk(hash) && PermsOk(t, p) && AuthOk(a)
    ensures Rebuilt(t, p).allcommands <==> AllSet(p.bits)
  {
    RebuiltPerms(t, p);
    if AllSet(p.bits) {
      NoCategoryRules(t, p, CATEGORIES, StartPerms(false));
      NothingToRebuild(t, p, StartPerms(false));
    } else {
      PermsReplay(t, p, a, p, hash);
      ReplaysKeepsOk(t, User(a, p), DescribePerms(t, p).0, hash, User(a, Rebuilt(t, p)));
    }
  }

  // ----- main results

  /** A user with the flag that the command bits call for. */
  ghost function Restored(u: User): User {
    u.(perms := u.perms.(allcommands := AllSet(u.perms.bits)))
  }

  lemma DescriptionReplays(t: Table, u: User, hash: string -> string)
    requires TableOk(t) && HashOk(hash) && UserOk(t, u)
    ensures Replays(t, Fresh(), Describe(t, u), hash, Restored(u))
  {
    var blank := Fresh().perms;
    AuthRules(t, u.auth, blank, hash);
    PermsReplay(t, u.perms, u.auth, blank, hash);
    RebuiltPerms(t, u.perms);
    RebuiltFlag(t, u.perms, u.auth, hash);
    ReplaysAppend(t, Fresh(), DescribeAuth(u.auth), User(u.auth, blank),
                  DescribePerms(t, u.perms).0, User(u.auth, Rebuilt(t, u.perms)), hash);
  }

  /** Round trip: every described rule succeeds on a fresh user, and together they restore
      everything but possibly the flag, which comes back set exactly when every bit is set. */
  lemma RoundTrip(t: Table, ops: seq<string>, hash: string -> string)
    requires TableOk(t) && HashOk(hash)
    ensures var u := Reached(t, ops, hash);
      Replays(t, Fresh(), Describe(t, u), hash, u.(perms := u.perms.(allcommands := AllSet(u.perms.bits))))
  {
    ReachedIsOk(t, ops, hash);
    DescriptionReplays(t, Reached(t, ops, hash), hash);
  }

  /** The round trip restores the user exactly unless all bits are set without the flag. */
  lemma RoundTripIsExact(t: Table, ops: seq<string>, hash: string -> string)
    requires TableOk(t) && HashOk(hash)
    ensures var u := Reached(t, ops, hash);
      Replays(t, Fresh(), Describe(t, u), hash, u) <==> !(AllSet(u.perms.bits) && !u.perms.allcommands)
  {
    var u := Reached(t, ops, hash);
    ReachedIsOk(t, ops, hash);
    RoundTrip(t, ops, hash);
    ReplaysUnique(t, Fresh(), Describe(t, u), hash, u, u.(perms := u.perms.(allcommands := AllSet(u.perms.bits))));
  }

  lemma {:induction false} ReplaysUnique(t: Table, u: User, ops: seq<string>, hash: string -> string, v: User, w: User)
    requires Replays(t, u, ops, hash, w)
    ensures Replays(t, u, ops, hash, v) <==> v == w
    decreases ops
  {
    if ops != [] { ReplaysUnique(t, SetUser(t, u, ops[0], hash).0, ops[1..], hash, v, w); }
  }
}
