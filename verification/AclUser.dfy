/** The mutable user record and the loops over it, each proved against the function that
    specifies it. */
module AclUser {
  import opened Common
  import opened Acl
  import opened AclRoundTrip
  import opened AclRules
  import opened AclText

  function Joined(rules: seq<string>, rest: (seq<string>, Perms)): (seq<string>, Perms) {
    (rules + rest.0, rest.1)
  }

  /** One round of the loop over the commands. */
  lemma FixesStep(t: Table, p: Perms, fake: Perms, i: nat, rules: seq<string>)
    requires i < |t|
    ensures var emitted := DescribeCommand(p, t[i], fake);
      var next := SetBit(fake, t[i].id, t[i].id < |p.bits| && p.bits[t[i].id]);
      Joined(rules, DescribeCommands(t[i..], p, fake)) == Joined(rules + emitted, DescribeCommands(t[i + 1..], p, next))
  {
    assert t[i..][0] == t[i] && t[i..][1..] == t[i + 1..];
    hide DescribeCommand, SetBit;
    var emitted := DescribeCommand(p, t[i], fake);
    var rest := DescribeCommands(t[i + 1..], p, SetBit(fake, t[i].id, t[i].id < |p.bits| && p.bits[t[i].id]));
    assert rules + (emitted + rest.0) == (rules + emitted) + rest.0;
  }

  lemma FixesDone(t: Table, p: Perms, fake: Perms, rules: seq<string>)
    ensures Joined(rules, DescribeCommands(t[|t|..], p, fake)) == (rules, fake)
  {
    assert rules + [] == rules;
  }

  /** listSearchKey: the first position of `x`, or the length. */
  method SearchKey(list: seq<string>, x: string) returns (i: nat)
    ensures i <= |list| && x !in list[..i] && (i < |list| ==> list[i] == x) && (i == |list| ==> x !in list)
  {
    i := 0;
    while i < |list|
      invariant i <= |list| && x !in list[..i]
    {
      if list[i] == x { return; }
      assert list[..i + 1] == list[..i] + [list[i]];
      i := i + 1;
    }
    assert list[..|list|] == list;
  }

  /** ACLStringHasSpaces. */
  method StringHasSpaces(s: string) returns (blank: bool)
    ensures blank == HasSpaces(s)
  {
    for i := 0 to |s|
      invariant !HasSpaces(s[..i])
    {
      if IsSpace(s[i]) || s[i] == '\0' { return true; }
    }
    assert s[..|s|] == s;
    blank := false;
  }

  class UserRecord {
    var auth: Auth
    var bits: seq<bool>
    var allcommands: bool
    var subs: map<nat, seq<string>>

    ghost function View(): User
      reads this
    {
      User(auth, Perms(bits, allcommands, subs))
    }

    constructor ()
      ensures View() == Fresh()
    {
      auth := Auth(false, true, false, [], false, []);
      bits, allcommands, subs := NoBits(), false, map[];
    }

    /** ACLSetUserCommandBit. */
    method SetCommandBit(id: nat, value: bool)
      modifies this`bits, this`allcommands
      ensures View().perms == SetBit(old(View().perms), id, value)
    {
      if id >= |bits| { return; }
      if value {
        bits := bits[id := true];
      } else {
        bits := bits[id := false];
        allcommands := false;
      }
    }

    /** ACLResetSubcommandsForCommand. */
    method ResetSubcommandsForCommand(id: nat)
      modifies this`subs
      ensures View().perms == ResetSubs(old(View().perms), id)
    {
      if id in subs {
        subs := subs - {id};
      } else {
        assert subs - {id} == subs;
      }
    }

    /** ACLSetUserCommandBitsForCategory on a known category. */
    method SetCommandBitsForCategory(t: Table, category: string, value: bool)
      modifies this`bits, this`allcommands, this`subs
      ensures View().perms == SetCategory(t, old(View().perms), category, value)
      ensures CategoryApplied(t, old(View().perms), category, value, View().perms)
    {
      for i := 0 to |t|
        invariant SetCategory(t, old(View().perms), category, value) ==
          SetCategory(t[i..], View().perms, category, value)
      {
        assert t[i..][1..] == t[i + 1..];
        if !t[i].isModule && category in t[i].categories {
          SetCommandBit(t[i].id, value);
          ResetSubcommandsForCommand(t[i].id);
        }
      }
      assert t[|t|..] == [];
      CategoryExact(t, old(View().perms), category, value);
    }

    /** ACLAddAllowedSubcommand. */
    method AddAllowedSubcommand(id: nat, sub: string)
      modifies this`subs
      ensures View().perms == AddSub(old(View().perms), id, sub)
    {
      var list := if id in subs then subs[id] else [];
      for items := 0 to |list|
        invariant !Contains(list[..items], sub)
      {
        if Lower(list[items]) == Lower(sub) { return; }
        assert list[..items + 1] == list[..items] + [list[items]];
      }
      assert list[..|list|] == list;
      subs := subs[id := list + [sub]];
    }

    method CommandRuleOn(t: Table, c: string) returns (r: Result)
      requires c != [] && (c[0] == '+' || c[0] == '-')
      modifies this`bits, this`allcommands, this`subs
      ensures (View().perms, r) == ApplyCommandRule(t, old(View().perms), c)
    {
      var plus := c[0] == '+';
      if |c| > 1 && c[1] == '@' {
        if Lower(c[2..]) !in CATEGORIES { return ENOENT; }
        SetCommandBitsForCategory(t, Lower(c[2..]), plus);
        return Ok;
      }
      var bar := IndexOf(c[1..], '|');
      if !plus || bar == |c[1..]| {
        var cmd := Find(t, c[1..]);
        if cmd.None? { return ENOENT; }
        SetCommandBit(cmd.value.id, plus);
        ResetSubcommandsForCommand(cmd.value.id);
        return Ok;
      }
      var cmd := Find(t, c[1..][..bar]);
      var sub := c[1..][bar + 1..];
      if cmd.None? { return ENOENT; }
      if sub == [] { return EINVAL; }
      if cmd.value.id < |bits| && bits[cmd.value.id] { return EBUSY; }
      AddAllowedSubcommand(cmd.value.id, sub);
      SetCommandBit(cmd.value.id, false);
      r := Ok;
    }

    /** The keyword branches of ACLSetUser. */
    method ApplyKeyword(k: string) returns (known: bool)
      modifies this
      ensures known <==> Keyword(old(View()), k).Some?
      ensures View() == if known then Keyword(old(View()), k).value else old(View())
    {
      known := true;
      if k == "on" {
        auth := auth.(enabled := true, disabled := false);
      } else if k == "off" {
        auth := auth.(disabled := true, enabled := false);
      } else if k == "allkeys" || k == "~*" {
        auth := auth.(allkeys := true, patterns := []);
      } else if k == "resetkeys" {
        auth := auth.(allkeys := false, patterns := []);
      } else if k == "allcommands" || k == "+@all" {
        bits, allcommands, subs := AllBits(), true, map[];
      } else if k == "nocommands" || k == "-@all" {
        bits, allcommands, subs := NoBits(), false, map[];
      } else if k == "nopass" {
        auth := auth.(nopass := true, passwords := []);
      } else if k == "resetpass" {
        auth := auth.(nopass := false, passwords := []);
      } else {
        known := false;
      }
    }

    /** The branches of ACLSetUser for the marks '>' and '#', which add a password. */
    method AddPassword(op: string, hash: string -> string) returns (r: Result)
      requires op != [] && (op[0] == '>' || op[0] == '#')
      modifies this`auth
      ensures (View().auth, r) == ApplyPassword(old(auth), op, hash)
    {
      var pass := op[1..];
      if op[0] == '>' {
        pass := hash(op[1..]);
      } else if !IsHash(op[1..]) {
        return EBADMSG;
      }
      var i := SearchKey(auth.passwords, pass);
      if i == |auth.passwords| { auth := auth.(passwords := auth.passwords + [pass]); }
      auth := auth.(nopass := false);
      r := Ok;
    }

    /** The branches of ACLSetUser for the marks '<' and '!', which remove a password. */
    method DelPassword(op: string, hash: string -> string) returns (r: Result)
      requires op != [] && (op[0] == '<' || op[0] == '!')
      modifies this`auth
      ensures (View().auth, r) == ApplyPassword(old(auth), op, hash)
      ensures auth == old(auth).(passwords := auth.passwords)
      ensures r == Ok ==> exists i :: Without(old(auth).passwords, RulePassword(op, hash), auth.passwords, i)
      ensures r != Ok ==> auth == old(auth)
    {
      var pass := op[1..];
      if op[0] == '<' {
        pass := hash(op[1..]);
      } else if !IsHash(op[1..]) {
        return EBADMSG;
      }
      var i := SearchKey(auth.passwords, pass);
      if i == |auth.passwords| { return ENODEV; }
      RemoveFirstAt(auth.passwords, pass, i);
      auth := auth.(passwords := auth.passwords[..i] + auth.passwords[i + 1..]);
      assert pass == RulePassword(op, hash);
      assert Without(old(auth).passwords, RulePassword(op, hash), auth.passwords, i);
      r := Ok;
    }

    /** The branch of ACLSetUser for key patterns. */
    method AddPattern(op: string) returns (r: Result)
      requires op != [] && op[0] == '~'
      modifies this`auth
      ensures (View().auth, r) == ApplyPattern(old(auth), op)
    {
      if auth.allkeys { return EEXIST; }
      var blank := StringHasSpaces(op[1..]);
      if blank { return EINVAL; }
      var i := SearchKey(auth.patterns, op[1..]);
      if i == |auth.patterns| { auth := auth.(patterns := auth.patterns + [op[1..]]); }
      auth := auth.(allkeys := false);
      r := Ok;
    }

    /** ACLSetUser. */
    method ApplyRule(t: Table, op: string, hash: string -> string) returns (r: Result)
      modifies this
      ensures (View(), r) == SetUser(t, old(View()), op, hash)
    {
      hide Keyword, CStr, ApplyCommandRule, ApplyPassword, ApplyPattern;
      if op == [] { return Ok; }
      var c := CStr(op);
      var known := ApplyKeyword(Lower(c));
      if known {
        return Ok;
      } else if op[0] == '>' || op[0] == '#' {
        r := AddPassword(op, hash);
      } else if op[0] == '<' || op[0] == '!' {
        r := DelPassword(op, hash);
      } else if op[0] == '~' {
        r := AddPattern(op);
      } else if c != [] && (c[0] == '+' || c[0] == '-') {
        r := CommandRuleOn(t, c);
      } else if Lower(c) == "reset" {
        auth := Auth(false, true, false, [], false, []);
        bits, allcommands, subs := NoBits(), false, map[];
        return Ok;
      } else {
        r := EINVAL;
      }
    }

    /** ACLCountCategoryBitsForUser on a known category. */
    method CountCategoryBits(t: Table, category: string) returns (on: nat, off: nat)
      ensures (on, off) == CountBits(t, View().perms, category)
      ensures (forall i, j :: 0 <= i < j < |t| ==> t[i].id != t[j].id) ==>
        on == |Counted(t, View().perms, category, true)| && off == |Counted(t, View().perms, category, false)|
    {
      on, off := 0, 0;
      for i := |t| downto 0
        invariant (on, off) == CountBits(t[i..], View().perms, category)
      {
        assert t[i..][1..] == t[i + 1..];
        if category in t[i].categories {
          if t[i].id < |bits| && bits[t[i].id] { on := on + 1; } else { off := off + 1; }
        }
      }
      assert t[0..] == t;
      if forall i, j :: 0 <= i < j < |t| ==> t[i].id != t[j].id { CountExact(t, View().perms, category); }
    }

    /** The loop over the categories; `fake` follows the rules emitted so far. */
    method DescribeCategoryRules(t: Table, additive: bool, cats: seq<string>, start: Perms)
      returns (rules: seq<string>, fake: Perms)
      ensures (rules, fake) == DescribeCategories(t, View().perms, additive, cats, start)
    {
      rules, fake := [], start;
      ghost var p := View().perms;
      ghost var goal := DescribeCategories(t, p, additive, cats, start);
      assert cats[0..] == cats && [] + goal.0 == goal.0;
      for j := 0 to |cats|
        invariant var rest := DescribeCategories(t, p, additive, cats[j..], fake);
          goal == (rules + rest.0, rest.1)
      {
        assert cats[j..][0] == cats[j] && cats[j..][1..] == cats[j + 1..];
        var on, off := CountCategoryBits(t, cats[j]);
        if (additive && on > off) || (!additive && off > on) {
          var op := (if additive then "+@" else "-@") + cats[j];
          fake := SetCategory(t, fake, cats[j], additive);
          ghost var rest := DescribeCategories(t, p, additive, cats[j + 1..], fake);
          assert rules + ([op] + rest.0) == (rules + [op]) + rest.0;
          rules := rules + [op];
        }
      }
      assert cats[|cats|..] == [];
      assert rules + [] == rules;
    }

    /** The loop over the commands. */
    method DescribeCommandFixes(t: Table, start: Perms) returns (rules: seq<string>, fake: Perms)
      ensures (rules, fake) == DescribeCommands(t, View().perms, start)
    {
      rules, fake := [], start;
      ghost var p := View().perms;
      ghost var goal := DescribeCommands(t, p, start);
      assert t[0..] == t && [] + goal.0 == goal.0;
      hide DescribeCommands, DescribeCommand, SetBit;
      for i := 0 to |t|
        invariant goal == Joined(rules, DescribeCommands(t[i..], p, fake))
      {
        FixesStep(t, p, fake, i, rules);
        rules := rules + DescribeCommand(Perms(bits, allcommands, subs), t[i], fake);
        fake := SetBit(fake, t[i].id, t[i].id < |bits| && bits[t[i].id]);
      }
      FixesDone(t, p, fake, rules);
    }

    /** ACLDescribeUserCommandRules. On a well-formed user its final check holds. */
    method DescribeRules(t: Table) returns (rules: seq<string>)
      requires TableOk(t) && PermsOk(t, View().perms)
      ensures rules == DescribePerms(t, View().perms).0
    {
      var additive := !(FUTURE < |bits| && bits[FUTURE]);
      var start := if additive then Perms(NoBits(), false, map[]) else Perms(AllBits(), true, map[]);
      var cats, mid := DescribeCategoryRules(t, additive, CATEGORIES, start);
      var cmds, end := DescribeCommandFixes(t, mid);
      rules := [if additive then "-@all" else "+@all"] + cats + cmds;
      ghost var p := View().perms;
      assert DescribePerms(t, p) == (rules, end);
      hide DescribePerms;
      // the program panics when the predicted bitmap differs
      assert end.bits == bits by {
        PermsReplay(t, p, auth, p, s => s);
        RebuiltPerms(t, p);
      }
    }

    /** ACLDescribeUser. */
    method DescribeText(t: Table) returns (text: string)
      requires TableOk(t) && PermsOk(t, View().perms)
      ensures Describe(t, View()) != [] && text == Join(Describe(t, View()))
    {
      var rules := DescribeRules(t);
      hide DescribePerms, DescribeAuth;
      text := JoinWords(DescribeAuth(auth) + rules);
    }
  }

  /** Append every word and a space, then drop the last space. */
  method JoinWords(words: seq<string>) returns (text: string)
    requires words != []
    ensures text == Join(words)
  {
    text := "";
    assert words[0..] == words && "" + Join(words) == Join(words);
    for i := 0 to |words|
      invariant i < |words| ==> text + Join(words[i..]) == Join(words)
      invariant i == |words| ==> text == Join(words) + " "
    {
      ghost var before := text;
      if i < |words| - 1 {
        assert words[i..][1..] == words[i + 1..];
        assert Join(words[i..]) == words[i] + " " + Join(words[i + 1..]);
        assert before + (words[i] + " " + Join(words[i + 1..])) == before + words[i] + " " + Join(words[i + 1..]);
      } else {
        assert Join(words[i..]) == words[i];
      }
      text := text + words[i] + " ";
    }
    text := text[..|text| - 1];
  }

  /** The subcommand lists copied so far. */
  function CopiedSubs(subs: map<nat, seq<string>>, todo: set<nat>): map<nat, seq<string>> {
    map id | id in subs && id !in todo :: subs[id]
  }

  /** Copy one command's subcommands, one by one. */
  method CopySubs(dst: UserRecord, id: nat, list: seq<string>)
    requires ListOk(list) && id !in dst.subs
    modifies dst
    ensures dst.View() == old(dst.View()).(perms := old(dst.View().perms).(subs := old(dst.subs)[id := list]))
  {
    ghost var was := dst.View();
    for i := 0 to |list|
      invariant dst.View() == if i == 0 then was else was.(perms := was.perms.(subs := was.perms.subs[id := list[..i]]))
    {
      assert SubsOf(dst.View().perms, id) == list[..i];
      assert !Contains(list[..i], list[i]);
      dst.AddAllowedSubcommand(id, list[i]);
      assert list[..i + 1] == list[..i] + [list[i]];
    }
    assert list[..|list|] == list;
  }

  /** ACLCopyUser: the copy allows exactly what the source allows. */
  method CopyUser(dst: UserRecord, src: UserRecord)
    requires dst != src
    requires forall id :: id in src.subs ==> ListOk(src.subs[id])
    modifies dst
    ensures dst.View() == src.View()
  {
    dst.auth := src.auth;
    dst.bits := src.bits;
    dst.allcommands := src.allcommands;
    dst.subs := map[];
    var subs := src.subs;
    var todo := subs.Keys;
    assert CopiedSubs(subs, todo) == map[] && CopiedSubs(subs, {}) == subs;
    while todo != {}
      invariant todo <= subs.Keys
      invariant dst.View() == src.View().(perms := src.View().perms.(subs := CopiedSubs(subs, todo)))
      decreases todo
    {
      var id :| id in todo;
      CopySubs(dst, id, subs[id]);
      assert CopiedSubs(subs, todo)[id := subs[id]] == CopiedSubs(subs, todo - {id});
      todo := todo - {id};
    }
  }
}
