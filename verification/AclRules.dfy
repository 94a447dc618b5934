/** What each rule token changes and what it leaves alone, said without following the loops. */
module AclRules {
  import opened Common
  import opened Acl
  import opened AclRoundTrip

  // ----- categories

  /** The commands that a category rule is about: built in, and flagged with the category. */
  ghost function Members(t: Table, category: string): set<nat> {
    set c | c in t && !c.isModule && category in c.categories :: c.id
  }

  lemma MembersCons(t: Table, category: string)
    requires t != []
    ensures Members(t, category) ==
      Members(t[1..], category) + if !t[0].isModule && category in t[0].categories then {t[0].id} else {}
  {
    assert t == [t[0]] + t[1..];
  }

  /** Exactly the bits of the members become `value`, exactly their subcommands go, and the flag
      goes when a bit was cleared. */
  ghost predicate CategoryApplied(t: Table, p: Perms, category: string, value: bool, q: Perms) {
    var ids := Members(t, category);
    && |q.bits| == |p.bits|
    && (forall id: nat :: id < |p.bits| ==> q.bits[id] == if id in ids then value else p.bits[id])
    && (forall id :: id in q.subs <==> id in p.subs && id !in ids)
    && (forall id :: id in q.subs ==> q.subs[id] == p.subs[id])
    && (q.allcommands <==> p.allcommands && (value || forall id :: id in ids ==> id >= |p.bits|))
  }

  lemma {:induction false} CategoryExact(t: Table, p: Perms, category: string, value: bool)
    ensures CategoryApplied(t, p, category, value, SetCategory(t, p, category, value))
    decreases t
  {
    if t != [] {
      MembersCons(t, category);
      var q := if !t[0].isModule && InCategory(t[0], category) then SetCommand(p, t[0].id, value) else p;
      CategoryExact(t[1..], q, category, value);
    }
  }

  /** `+@name` and `-@name`, in any case, on every user. */
  lemma CategoryRuleExact(t: Table, u: User, op: string, hash: string -> string)
    requires var c := CStr(op); |c| >= 2 && (c[0] == '+' || c[0] == '-') && c[1] == '@' && Lower(c[2..]) != "all"
    ensures var c, (v, r) := CStr(op), SetUser(t, u, op, hash);
      if Lower(c[2..]) in CATEGORIES
      then r == Ok && v.auth == u.auth && CategoryApplied(t, u.perms, Lower(c[2..]), c[0] == '+', v.perms)
      else r == ENOENT && v == u
  {
    hide Keyword, SetCategory, Lower, CategoryApplied, Find, IndexOf, SetCommand;
    var c := CStr(op);
    assert c == [c[0], '@'] + c[2..];
    CategoryNotKeyword(u, c[0], c[2..]);
    CategoryExact(t, u.perms, Lower(c[2..]), c[0] == '+');
  }

  /** The commands of a category with the bit set, or with it clear. */
  ghost function Counted(t: Table, p: Perms, category: string, on: bool): set<Cmd> {
    set c | c in t && category in c.categories && GetBit(p, c.id) == on
  }

  lemma CountedCons(t: Table, p: Perms, category: string, on: bool)
    requires t != [] && t[0] !in t[1..]
    ensures |Counted(t, p, category, on)| == |Counted(t[1..], p, category, on)| +
      if category in t[0].categories && GetBit(p, t[0].id) == on then 1 else 0
  {
    var here := if category in t[0].categories && GetBit(p, t[0].id) == on then {t[0]} else {};
    assert Counted(t, p, category, on) == Counted(t[1..], p, category, on) + here by {
      assert t == [t[0]] + t[1..];
    }
  }

  /** The two counts that decide which category rules a description emits. */
  lemma {:induction false} CountExact(t: Table, p: Perms, category: string)
    requires forall i, j :: 0 <= i < j < |t| ==> t[i].id != t[j].id
    ensures CountBits(t, p, category) == (|Counted(t, p, category, true)|, |Counted(t, p, category, false)|)
  {
    if t != [] {
      CountedCons(t, p, category, true);
      CountedCons(t, p, category, false);
      CountExact(t[1..], p, category);
    }
  }

  /** A description emits exactly the category rules that save work: those of the categories of which
      most commands differ from the starting point. */
  lemma {:induction false} CategoriesEmitted(t: Table, p: Perms, additive: bool, cats: seq<string>, fake: Perms,
                                             rule: string)
    requires forall i, j :: 0 <= i < j < |t| ==> t[i].id != t[j].id
    ensures rule in DescribeCategories(t, p, additive, cats, fake).0 <==>
      exists i :: 0 <= i < |cats| && rule == (if additive then "+@" else "-@") + cats[i]
        && |Counted(t, p, cats[i], additive)| > |Counted(t, p, cats[i], !additive)|
    decreases cats
  {
    if cats != [] {
      hide Counted, SetCategory, CountBits;
      CountExact(t, p, cats[0]);
      var (on, off) := CountBits(t, p, cats[0]);
      var emit := (additive && on > off) || (!additive && off > on);
      CategoriesEmitted(t, p, additive, cats[1..], if emit then SetCategory(t, fake, cats[0], additive) else fake, rule);
      assert forall i :: 0 < i < |cats| ==> cats[i] == cats[1..][i - 1];
    }
  }

  // ----- passwords

  /** The password a rule is about: hashed here, or given as its hash. */
  function RulePassword(op: string, hash: string -> string): string
    requires op != []
  {
    if op[0] == '>' || op[0] == '<' then hash(op[1..]) else op[1..]
  }

  lemma MarkNotKeyword(u: User, op: string)
    requires op != [] && op[0] in ['>', '#', '<', '!']
    ensures Keyword(u, Lower(CStr(op))).None?
  {
    NotKeyword(u, Lower(CStr(op)));
  }

  /** `rest` is `list` without its entry `i`, which is `x`. */
  ghost predicate Without(list: seq<string>, x: string, rest: seq<string>, i: int) {
    0 <= i < |list| && list[i] == x && rest == list[..i] + list[i + 1..]
  }

  /** Deleting the first occurrence. */
  lemma {:induction false} RemoveFirstAt(list: seq<string>, x: string, i: nat)
    requires i < |list| && list[i] == x && x !in list[..i]
    ensures RemoveFirst(list, x) == list[..i] + list[i + 1..]
  {
    if i > 0 {
      assert list[0] in list[..i];
      assert list[1..][..i - 1] == list[..i][1..];
      RemoveFirstAt(list[1..], x, i - 1);
    }
  }

  lemma {:induction false} FirstOccurrence(list: seq<string>, x: string, n: nat) returns (i: nat)
    requires n < |list| && list[n] == x
    ensures i <= n && list[i] == x && x !in list[..i]
    decreases n
  {
    i := n;
    if k :| 0 <= k < n && list[k] == x { i := FirstOccurrence(list, x, k); }
  }

  lemma RemoveFirstSplits(list: seq<string>, x: string)
    requires x in list
    ensures exists i :: Without(list, x, RemoveFirst(list, x), i)
  {
    var n :| 0 <= n < |list| && list[n] == x;
    var i := FirstOccurrence(list, x, n);
    RemoveFirstAt(list, x, i);
    hide RemoveFirst;
    assert Without(list, x, RemoveFirst(list, x), i);
  }

  /** The rest of the user stays. */
  ghost predicate OnlyPasswords(u: User, v: User) {
    v == u.(auth := u.auth.(nopass := v.auth.nopass, passwords := v.auth.passwords))
  }

  /** `<password` and `!hash` delete one entry and keep the order of the others; a hash that is not
      one, or a password that is not there, is an error that changes nothing. */
  lemma RemoveRuleExact(t: Table, u: User, op: string, hash: string -> string)
    requires op != [] && (op[0] == '<' || op[0] == '!')
    ensures var (v, r) := SetUser(t, u, op, hash);
      var x, list := RulePassword(op, hash), u.auth.passwords;
      if op[0] == '!' && !IsHash(x) then r == EBADMSG && v == u
      else if x !in list then r == ENODEV && v == u
      else (&& r == Ok && OnlyPasswords(u, v) && v.auth.nopass == u.auth.nopass
            && exists i :: Without(list, x, v.auth.passwords, i))
  {
    hide Keyword, CStr, Lower, IsHash, RemoveFirst;
    MarkNotKeyword(u, op);
    if RulePassword(op, hash) in u.auth.passwords { RemoveFirstSplits(u.auth.passwords, RulePassword(op, hash)); }
  }

  /** `>password` and `#hash` add one entry at the end, or none when it is there, and always end
      free access. */
  lemma AddRuleExact(t: Table, u: User, op: string, hash: string -> string)
    requires op != [] && (op[0] == '>' || op[0] == '#')
    ensures var (v, r) := SetUser(t, u, op, hash);
      var x, list := RulePassword(op, hash), u.auth.passwords;
      if op[0] == '#' && !IsHash(x) then r == EBADMSG && v == u
      else (&& r == Ok && OnlyPasswords(u, v) && !v.auth.nopass
            && v.auth.passwords == list + if x in list then [] else [x])
  {
    hide Keyword, CStr, Lower, IsHash, RemoveFirst;
    MarkNotKeyword(u, op);
  }

  /** Removing a password just added undoes the addition. */
  lemma AddThenRemove(t: Table, u: User, add: string, remove: string, hash: string -> string)
    requires add != [] && (add[0] == '>' || add[0] == '#') && remove != [] && (remove[0] == '<' || remove[0] == '!')
    requires var x := RulePassword(add, hash);
      RulePassword(remove, hash) == x && IsHash(x) && x !in u.auth.passwords && !u.auth.nopass
    ensures SetUser(t, SetUser(t, u, add, hash).0, remove, hash) == (u, Ok)
  {
    hide SetUser, IsHash, RulePassword;
    var v := SetUser(t, u, add, hash).0;
    AddRuleExact(t, u, add, hash);
    RemoveRuleExact(t, v, remove, hash);
    var x, list := RulePassword(add, hash), u.auth.passwords;
    assert v.auth.passwords == list + [x];
    assert v.auth.passwords[|list|] == x;
    var i :| Without(v.auth.passwords, x, SetUser(t, v, remove, hash).0.auth.passwords, i);
    assert i == |list|;
    assert v.auth.passwords[..i] + v.auth.passwords[i + 1..] == list;
  }
}
