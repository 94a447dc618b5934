/** Users as text: the ACL file that ACLSaveToFile writes, one line of rules for every user, and
    the reader of ACLLoadFromFile, which cuts the file into lines, trims and cuts each line into
    rules, trims those and applies them. */
module AclText {
  import opened Common
  import opened Acl
  import opened AclRoundTrip

  // ----- the text functions of the string library

  /** sdssplitlen with a separator of one character. */
  function Split(s: string, sep: char): (r: seq<string>)
    ensures r != []
    decreases |s|
  {
    var i := IndexOf(s, sep);
    if i == |s| then [s] else [s[..i]] + Split(s[i + 1..], sep)
  }

  /** The test of sdstrim, which also finds the terminator of the set. */
  predicate Trims(c: char, cset: string) {
    c in cset || c == '\0'
  }

  function TrimLeft(s: string, cset: string): string {
    if s == [] || !Trims(s[0], cset) then s else TrimLeft(s[1..], cset)
  }

  function TrimRight(s: string, cset: string): string {
    if s == [] || !Trims(s[|s| - 1], cset) then s else TrimRight(s[..|s| - 1], cset)
  }

  /** sdstrim. */
  function Trim(s: string, cset: string): string {
    TrimRight(TrimLeft(s, cset), cset)
  }

  function Join(rules: seq<string>): string
    requires rules != []
  {
    if |rules| == 1 then rules[0] else rules[0] + " " + Join(rules[1..])
  }

  lemma {:induction false} SplitPieces(s: string, sep: char)
    ensures forall x :: x in Split(s, sep) ==> sep !in x && forall c :: c in x ==> c in s
    decreases |s|
  {
    var i := IndexOf(s, sep);
    if i < |s| { SplitPieces(s[i + 1..], sep); }
  }

  lemma SplitFirst(first: string, rest: string, sep: char)
    requires sep !in first
    ensures Split(first + [sep] + rest, sep) == [first] + Split(rest, sep) && Split(first, sep) == [first]
  {
    var s := first + [sep] + rest;
    assert s[|first|] == sep && forall k :: 0 <= k < |first| ==> s[k] == first[k];
    assert IndexOf(s, sep) == |first| && IndexOf(first, sep) == |first|;
    assert s[..|first|] == first && s[|first| + 1..] == rest;
  }

  lemma {:induction false} SplitJoin(rules: seq<string>)
    requires rules != [] && forall x :: x in rules ==> ' ' !in x
    ensures Split(Join(rules), ' ') == rules
  {
    hide Split;
    assert rules[0] in rules;
    if |rules| == 1 {
      SplitFirst(rules[0], "", ' ');
    } else {
      SplitJoin(rules[1..]);
      SplitFirst(rules[0], Join(rules[1..]), ' ');
    }
  }

  /** Splitting undoes joining exactly when no rule contains a space. */
  lemma SplitJoinIsExact(rules: seq<string>)
    requires rules != []
    ensures Split(Join(rules), ' ') == rules <==> forall x :: x in rules ==> ' ' !in x
  {
    hide Split, Join;
    SplitPieces(Join(rules), ' ');
    if forall x :: x in rules ==> ' ' !in x { SplitJoin(rules); }
  }

  lemma {:induction false} TrimLeftPiece(s: string, cset: string)
    ensures forall c :: c in TrimLeft(s, cset) ==> c in s
  {
    if s != [] && Trims(s[0], cset) { TrimLeftPiece(s[1..], cset); }
  }

  lemma {:induction false} TrimRightPiece(s: string, cset: string)
    ensures forall c :: c in TrimRight(s, cset) ==> c in s
    ensures var r := TrimRight(s, cset); r == [] || !Trims(r[|r| - 1], cset)
  {
    if s != [] && Trims(s[|s| - 1], cset) { TrimRightPiece(s[..|s| - 1], cset); }
  }

  /** What is left by trimming is part of the text and does not end in the set. */
  lemma TrimPiece(s: string, cset: string)
    ensures var r := Trim(s, cset);
      (forall c :: c in r ==> c in s) && (r == [] || !Trims(r[|r| - 1], cset))
  {
    TrimLeftPiece(s, cset);
    TrimRightPiece(TrimLeft(s, cset), cset);
  }

  // ----- the file

  datatype Account = Account(name: string, user: User)

  type Users = map<string, User>

  function UserLine(name: string, rules: seq<string>): string
    requires rules != []
  {
    "user " + name + " " + Join(rules)
  }

  lemma DescribedIsNotEmpty(t: Table, u: User)
    ensures Describe(t, u) != []
  {
  }

  /** The text of ACLSaveToFile. */
  function SaveFile(t: Table, accounts: seq<Account>): string {
    if accounts == [] then ""
    else
      DescribedIsNotEmpty(t, accounts[0].user);
      UserLine(accounts[0].name, Describe(t, accounts[0].user)) + "\n" + SaveFile(t, accounts[1..])
  }

  /** ACLSaveToFile, up to writing the text. */
  method SaveToFile(t: Table, accounts: seq<Account>) returns (text: string)
    ensures text == SaveFile(t, accounts)
  {
    hide SaveFile, Describe, UserLine;
    text := "";
    SaveStarts(t, accounts);
    for i := 0 to |accounts|
      invariant SaveFile(t, accounts) == text + SaveFile(t, accounts[i..])
    {
      SaveStep(t, accounts, i, text);
      text := text + UserLine(accounts[i].name, Describe(t, accounts[i].user)) + "\n";
    }
    SaveEnds(t, accounts, text);
  }

  lemma SaveStarts(t: Table, accounts: seq<Account>)
    ensures "" + SaveFile(t, accounts[0..]) == SaveFile(t, accounts)
  {
    assert accounts[0..] == accounts;
  }

  lemma SaveStep(t: Table, accounts: seq<Account>, i: nat, text: string)
    requires i < |accounts|
    ensures Describe(t, accounts[i].user) != []
    ensures text + SaveFile(t, accounts[i..]) ==
      (text + UserLine(accounts[i].name, Describe(t, accounts[i].user)) + "\n") + SaveFile(t, accounts[i + 1..])
  {
    hide Describe, UserLine, SaveFile;
    DescribedIsNotEmpty(t, accounts[i].user);
    SaveUnfolds(t, accounts, i);
    var line := UserLine(accounts[i].name, Describe(t, accounts[i].user));
    Regroup(text, line, SaveFile(t, accounts[i + 1..]));
  }

  lemma Regroup(text: string, line: string, rest: string)
    ensures text + (line + "\n" + rest) == (text + line + "\n") + rest
  {
  }

  lemma SaveUnfolds(t: Table, accounts: seq<Account>, i: nat)
    requires i < |accounts| && Describe(t, accounts[i].user) != []
    ensures SaveFile(t, accounts[i..]) ==
      UserLine(accounts[i].name, Describe(t, accounts[i].user)) + "\n" + SaveFile(t, accounts[i + 1..])
  {
    hide Describe, UserLine;
    assert accounts[i..][0] == accounts[i] && accounts[i..][1..] == accounts[i + 1..];
  }

  lemma SaveEnds(t: Table, accounts: seq<Account>, text: string)
    ensures text + SaveFile(t, accounts[|accounts|..]) == text
  {
  }

  /** ACLInitDefaultUser. */
  function Initial(): Users {
    map["default" := User(Auth(true, false, true, [], true, []), Perms(AllBits(), true, map[]))]
  }

  /** Apply rules in order; any failure fails the whole line. */
  function ApplyAll(t: Table, u: User, rules: seq<string>, hash: string -> string): Option<User>
    decreases rules
  {
    if rules == [] then Some(u)
    else
      var (v, r) := SetUser(t, u, rules[0], hash);
      if r == Ok then ApplyAll(t, v, rules[1..], hash) else None
  }

  function TrimAll(rules: seq<string>): seq<string> {
    seq(|rules|, i requires 0 <= i < |rules| => Trim(rules[i], "\t\r\n"))
  }

  /** One line of the file: blank, an error, or the definition of a user. */
  function LoadLine(t: Table, users: Users, line: string, hash: string -> string): Option<Users> {
    var text := Trim(line, " \t\r\n");
    if text == "" then Some(users)
    else
      var args := Split(text, ' ');
      if args[0] != "user" || |args| < 2 || HasSpaces(args[1]) then None
      else
        var u := ApplyAll(t, Fresh(), TrimAll(args[2..]), hash);
        if u.None? then None else Some(users[args[1] := u.value])
  }

  function LoadLines(t: Table, users: Users, lines: seq<string>, hash: string -> string): Option<Users>
    decreases lines
  {
    if lines == [] then Some(users)
    else
      var next := LoadLine(t, users, lines[0], hash);
      if next.None? then None else LoadLines(t, next.value, lines[1..], hash)
  }

  /** What ACLLoadFromFile makes of a text; None when any line has an error. */
  function LoadFile(t: Table, text: string, hash: string -> string): Option<Users> {
    LoadLines(t, Initial(), if text == "" then [] else Split(text, '\n'), hash)
  }

  /** ACLLoadFromFile: every line is looked at, and users are only kept if there was no error. */
  method LoadFromFile(t: Table, text: string, hash: string -> string) returns (loaded: Option<Users>)
    ensures loaded == LoadFile(t, text, hash)
  {
    var lines := if text == "" then [] else Split(text, '\n');
    var users, errors := Initial(), false;
    for i := 0 to |lines|
      invariant LoadFile(t, text, hash) == if errors then None else LoadLines(t, users, lines[i..], hash)
    {
      var next := LoadLine(t, users, lines[i], hash);
      if next.None? {
        errors := true;
      } else if !errors {
        users := next.value;
      }
    }
    loaded := if errors then None else Some(users);
  }

  // ----- properties of all the rules of a description

  /** A property of rules that every text without blanks has, and that a rule with a subcommand has
      exactly when the subcommand has property `q`. */
  ghost predicate Reads(p: string -> bool, q: string -> bool) {
    && TakesWords(p)
    && forall a, s :: Extends(p, q, a, s)
  }

  ghost predicate TakesWords(p: string -> bool) {
    forall s :: s != [] && !HasSpaces(s) ==> p(s)
  }

  ghost predicate Extends(p: string -> bool, q: string -> bool, a: string, s: string) {
    a != [] && s != [] && !HasSpaces(a) ==> (p(a + s) <==> q(s))
  }

  ghost predicate All(p: string -> bool, rules: seq<string>) {
    forall x :: x in rules ==> p(x)
  }

  ghost predicate AllSubs(q: string -> bool, p: Perms) {
    forall id, i :: id in p.subs && 0 <= i < |p.subs[id]| ==> q(p.subs[id][i])
  }

  ghost predicate NonEmpty(subs: seq<string>) {
    forall i :: 0 <= i < |subs| ==> subs[i] != []
  }

  lemma AllAppend(p: string -> bool, a: seq<string>, b: seq<string>)
    ensures All(p, a + b) <==> All(p, a) && All(p, b)
  {
    if All(p, a + b) {
      assert forall x :: x in a ==> x in a + b;
      assert forall x :: x in b ==> x in a + b;
    }
  }

  lemma {:induction false} PrefixedReads(p: string -> bool, mark: char, list: seq<string>)
    requires !IsSpace(mark) && mark != '\0' && forall x :: x in list ==> !HasSpaces(x)
    requires TakesWords(p)
    ensures All(p, Prefixed(mark, list))
  {
    if list != [] {
      assert list[0] in list;
      assert !HasSpaces([mark] + list[0]);
      PrefixedReads(p, mark, list[1..]);
    }
  }

  lemma AuthReads(p: string -> bool, a: Auth)
    requires AuthOk(a) && TakesWords(p)
    ensures All(p, DescribeAuth(a))
  {
    assert !HasSpaces("on") && !HasSpaces("off") && !HasSpaces("nopass") && !HasSpaces("~*");
    forall x | x in a.passwords
      ensures !HasSpaces(x)
    {
      assert IsHash(x);
    }
    PrefixedReads(p, '#', a.passwords);
    PrefixedReads(p, '~', a.patterns);
  }

  lemma CategoryNamesAreWords()
    ensures forall x :: x in CATEGORIES ==> !HasSpaces(x)
  {
    forall x | x in CATEGORIES
      ensures !HasSpaces(x)
    {
      CategoryIsLower(x);
      assert Letters(x);
    }
  }

  lemma {:induction false} CategoriesRead(p: string -> bool, t: Table, u: Perms, additive: bool,
                                          cats: seq<string>, fake: Perms)
    requires (forall x :: x in cats ==> !HasSpaces(x)) && TakesWords(p)
    ensures All(p, DescribeCategories(t, u, additive, cats, fake).0)
    decreases cats
  {
    if cats != [] {
      assert cats[0] in cats;
      assert !HasSpaces((if additive then "+@" else "-@") + cats[0]);
      CategoriesRead(p, t, u, additive, cats[1..], SetCategory(t, fake, cats[0], additive));
      CategoriesRead(p, t, u, additive, cats[1..], fake);
    }
  }

  lemma SubRuleReads(p: string -> bool, q: string -> bool, name: string, sub: string)
    requires Reads(p, q) && !HasSpaces(name) && sub != []
    ensures p(SubRuleText(name, sub)) <==> q(sub)
  {
    var head := "+" + name + "|";
    assert !HasSpaces(head);
    assert Extends(p, q, head, sub);
    assert SubRuleText(name, sub) == head + sub;
  }

  lemma {:induction false} SubRulesRead(p: string -> bool, q: string -> bool, name: string, subs: seq<string>)
    requires Reads(p, q) && !HasSpaces(name) && NonEmpty(subs)
    ensures All(p, SubRules(name, subs)) <==> All(q, subs)
  {
    if subs != [] {
      SubRuleReads(p, q, name, subs[0]);
      SubRulesRead(p, q, name, subs[1..]);
      AllAppend(p, [SubRuleText(name, subs[0])], SubRules(name, subs[1..]));
      AllAppend(q, [subs[0]], subs[1..]);
      assert subs == [subs[0]] + subs[1..];
      assert subs[0] in [subs[0]] && SubRuleText(name, subs[0]) in [SubRuleText(name, subs[0])];
    }
  }

  lemma CommandReads(p: string -> bool, q: string -> bool, u: Perms, c: Cmd, fake: Perms)
    requires Reads(p, q) && !HasSpaces(c.name) && NonEmpty(SubsOf(u, c.id))
    ensures All(p, DescribeCommand(u, c, fake)) <==> GetBit(u, c.id) || All(q, SubsOf(u, c.id))
  {
    var on := GetBit(u, c.id);
    var fix := if on != GetBit(fake, c.id) then [(if on then "+" else "-") + c.name] else [];
    assert !HasSpaces((if on then "+" else "-") + c.name);
    SubRulesRead(p, q, c.name, SubsOf(u, c.id));
    AllAppend(p, fix, if on then [] else SubRules(c.name, SubsOf(u, c.id)));
  }

  lemma {:induction false} CommandsRead(p: string -> bool, q: string -> bool, part: Table, u: Perms, fake: Perms)
    requires Reads(p, q)
    requires forall c :: c in part ==> !HasSpaces(c.name) && NonEmpty(SubsOf(u, c.id))
    ensures All(p, DescribeCommands(part, u, fake).0) <==>
            forall c :: c in part ==> GetBit(u, c.id) || All(q, SubsOf(u, c.id))
    decreases part
  {
    if part != [] {
      var next := SetBit(fake, part[0].id, GetBit(u, part[0].id));
      CommandReads(p, q, u, part[0], fake);
      CommandsRead(p, q, part[1..], u, next);
      AllAppend(p, DescribeCommand(u, part[0], fake), DescribeCommands(part[1..], u, next).0);
      assert part == [part[0]] + part[1..];
    }
  }

  lemma SubsFollowTable(q: string -> bool, t: Table, p: Perms)
    requires PermsOk(t, p)
    ensures (forall c :: c in t ==> GetBit(p, c.id) || All(q, SubsOf(p, c.id))) <==> AllSubs(q, p)
  {
    if forall c :: c in t ==> GetBit(p, c.id) || All(q, SubsOf(p, c.id)) {
      forall id, i | id in p.subs && 0 <= i < |p.subs[id]|
        ensures q(p.subs[id][i])
      {
        assert id in Ids(t);
        var c :| c in t && c.id == id;
        assert All(q, SubsOf(p, c.id));
      }
    }
  }

  ghost predicate NamesAreWords(t: Table) {
    forall c :: c in t ==> !HasSpaces(c.name)
  }

  lemma SubsAreNotEmpty(t: Table, p: Perms, id: nat)
    requires PermsOk(t, p)
    ensures NonEmpty(SubsOf(p, id))
  {
    if id in p.subs { assert ListOk(p.subs[id]); }
  }

  lemma HeadReads(p: string -> bool, additive: bool, cats: seq<string>)
    requires TakesWords(p) && All(p, cats)
    ensures All(p, [if additive then "-@all" else "+@all"] + cats)
  {
    assert !HasSpaces("-@all") && !HasSpaces("+@all");
  }

  lemma TableReads(p: string -> bool, q: string -> bool, t: Table, u: Perms, fake: Perms)
    requires Reads(p, q) && PermsOk(t, u) && NamesAreWords(t)
    ensures All(p, DescribeCommands(t, u, fake).0) <==> AllSubs(q, u)
  {
    hide DescribeCommands, All, AllSubs, PermsOk, Reads;
    forall c | c in t
      ensures NonEmpty(SubsOf(u, c.id))
    {
      SubsAreNotEmpty(t, u, c.id);
    }
    CommandsRead(p, q, t, u, fake);
    SubsFollowTable(q, t, u);
  }

  /** All command rules have property `p` exactly when all allowed subcommands have property `q`. */
  lemma PermsRead(p: string -> bool, q: string -> bool, t: Table, u: Perms)
    requires Reads(p, q) && PermsOk(t, u) && NamesAreWords(t)
    ensures All(p, DescribePerms(t, u).0) <==> AllSubs(q, u)
  {
    hide DescribeCategories, DescribeCommands, All, AllSubs, PermsOk, NamesAreWords, HasSpaces, Extends, TakesWords;
    var additive := !GetBit(u, FUTURE);
    var (cats, mid) := DescribeCategories(t, u, additive, CATEGORIES, StartPerms(additive));
    CategoryNamesAreWords();
    CategoriesRead(p, t, u, additive, CATEGORIES, StartPerms(additive));
    HeadReads(p, additive, cats);
    TableReads(p, q, t, u, mid);
    AllAppend(p, [if additive then "-@all" else "+@all"] + cats, DescribeCommands(t, u, mid).0);
  }

  lemma DescribeReads(p: string -> bool, q: string -> bool, t: Table, u: User)
    requires Reads(p, q) && UserOk(t, u) && NamesAreWords(t)
    ensures All(p, Describe(t, u)) <==> AllSubs(q, u.perms)
  {
    AuthReads(p, u.auth);
    PermsRead(p, q, t, u.perms);
    AllAppend(p, DescribeAuth(u.auth), DescribePerms(t, u.perms).0);
  }

  // ----- clean subcommands

  /** A subcommand that survives the file: no space, no newline, no tab or carriage return at its end. */
  predicate Clean(s: string) {
    s != [] && ' ' !in s && '\n' !in s && s[|s| - 1] !in "\t\r"
  }

  /** A rule that survives the file. */
  predicate CleanRule(s: string) {
    Clean(s) && !IsSpace(s[0])
  }

  predicate NoNul(s: string) {
    '\0' !in s
  }

  lemma CleanReads()
    ensures Reads(CleanRule, Clean) && Reads(NoNul, NoNul)
  {
    forall s | s != [] && !HasSpaces(s)
      ensures CleanRule(s) && NoNul(s)
    {
      assert forall i :: 0 <= i < |s| ==> !IsSpace(s[i]) && s[i] != '\0';
    }
    forall a, s
      ensures Extends(CleanRule, Clean, a, s) && Extends(NoNul, NoNul, a, s)
    {
      if a != [] && s != [] && !HasSpaces(a) {
        assert forall i :: 0 <= i < |a| ==> !IsSpace(a[i]) && a[i] != '\0';
        assert forall c :: c in a + s <==> c in a || c in s;
        assert (a + s)[|a + s| - 1] == s[|s| - 1] && (a + s)[0] == a[0];
      }
    }
  }

  // ----- a clean file loads back

  lemma TrimKeeps(s: string, cset: string)
    requires s == [] || (!Trims(s[0], cset) && !Trims(s[|s| - 1], cset))
    ensures Trim(s, cset) == s
  {
  }

  ghost predicate Whole(rules: seq<string>) {
    rules != [] && All(CleanRule, rules) && All(NoNul, rules)
  }

  lemma {:induction false} JoinShape(rules: seq<string>)
    requires Whole(rules)
    ensures var s := Join(rules); s != [] && '\n' !in s && !Trims(s[|s| - 1], " \t\r\n")
  {
    assert rules[0] in rules && CleanRule(rules[0]) && NoNul(rules[0]);
    if |rules| > 1 {
      assert Whole(rules[1..]);
      JoinShape(rules[1..]);
    }
  }

  lemma LineSplits(name: string, rules: seq<string>)
    requires ' ' !in name && Whole(rules)
    ensures Split(UserLine(name, rules), ' ') == ["user", name] + rules
  {
    var words := ["user", name] + rules;
    forall x | x in words
      ensures ' ' !in x
    {
      assert x in rules ==> CleanRule(x);
    }
    hide Whole, Split;
    SplitJoin(words);
    assert words[1..] == [name] + rules && words[1..][1..] == rules;
    assert Join(words) == UserLine(name, rules);
  }

  lemma LineShape(name: string, rules: seq<string>)
    requires !HasSpaces(name) && Whole(rules)
    ensures var line := UserLine(name, rules);
      && '\n' !in line && line != "" && Trim(line, " \t\r\n") == line
      && Split(line, ' ') == ["user", name] + rules
  {
    hide HasSpaces, All, Split, Trim, Join;
    JoinShape(rules);
    NameIsWord(name);
    LineSplits(name, rules);
    var line := UserLine(name, rules);
    assert line[0] == 'u' && line[|line| - 1] == Join(rules)[|Join(rules)| - 1];
    TrimKeeps(line, " \t\r\n");
  }

  lemma NameIsWord(name: string)
    requires !HasSpaces(name)
    ensures ' ' !in name && '\n' !in name && '\0' !in name
  {
    assert forall i :: 0 <= i < |name| ==> !IsSpace(name[i]) && name[i] != '\0';
  }

  lemma RulesKeep(rules: seq<string>)
    requires All(CleanRule, rules) && All(NoNul, rules)
    ensures TrimAll(rules) == rules
  {
    forall i | 0 <= i < |rules|
      ensures Trim(rules[i], "\t\r\n") == rules[i]
    {
      assert CleanRule(rules[i]) && NoNul(rules[i]);
      TrimKeeps(rules[i], "\t\r\n");
    }
  }

  lemma {:induction false} AppliesAll(t: Table, u: User, rules: seq<string>, hash: string -> string, v: User)
    ensures Replays(t, u, rules, hash, v) <==> ApplyAll(t, u, rules, hash) == Some(v)
    decreases rules
  {
    if rules != [] { AppliesAll(t, SetUser(t, u, rules[0], hash).0, rules[1..], hash, v); }
  }

  /** The line of a user whose rules survive the file gives the user back. */
  lemma LineLoads(t: Table, users: Users, a: Account, hash: string -> string)
    requires TableOk(t) && HashOk(hash) && UserOk(t, a.user) && !HasSpaces(a.name) && Whole(Describe(t, a.user))
    ensures LoadLine(t, users, UserLine(a.name, Describe(t, a.user)), hash) == Some(users[a.name := Restored(a.user)])
  {
    hide Describe, HasSpaces, Trim, Split, TrimAll, Restored, TableOk, UserOk, UserLine;
    LineShape(a.name, Describe(t, a.user));
    RulesKeep(Describe(t, a.user));
    DescriptionReplays(t, a.user, hash);
    AppliesAll(t, Fresh(), Describe(t, a.user), hash, Restored(a.user));
    var words := ["user", a.name] + Describe(t, a.user);
    assert words[2..] == Describe(t, a.user) && words[0] == "user" && words[1] == a.name;
  }

  ghost function Added(users: Users, accounts: seq<Account>): Users
    decreases accounts
  {
    if accounts == [] then users
    else Added(users[accounts[0].name := Restored(accounts[0].user)], accounts[1..])
  }

  ghost predicate Saved(t: Table, accounts: seq<Account>) {
    forall a :: a in accounts ==> UserOk(t, a.user) && !HasSpaces(a.name)
  }

  lemma {:induction false} FileLoads(t: Table, users: Users, accounts: seq<Account>, hash: string -> string)
    requires TableOk(t) && HashOk(hash) && Saved(t, accounts)
    requires forall a :: a in accounts ==> Whole(Describe(t, a.user))
    ensures LoadLines(t, users, Split(SaveFile(t, accounts), '\n'), hash) == Some(Added(users, accounts))
    decreases accounts
  {
    hide LoadLine, UserLine, Restored, Describe, TableOk, UserOk, HasSpaces, Whole;
    if accounts == [] {
      BlankLoads(t, users, hash);
    } else {
      var a := accounts[0];
      assert a in accounts;
      DescribedIsNotEmpty(t, a.user);
      LineShape(a.name, Describe(t, a.user));
      LineLoads(t, users, a, hash);
      SplitFirst(UserLine(a.name, Describe(t, a.user)), SaveFile(t, accounts[1..]), '\n');
      assert forall b :: b in accounts[1..] ==> b in accounts;
      FileLoads(t, users[a.name := Restored(a.user)], accounts[1..], hash);
    }
  }

  lemma BlankLoads(t: Table, users: Users, hash: string -> string)
    ensures LoadLines(t, users, Split("", '\n'), hash) == Some(users)
  {
    assert Split("", '\n') == [""];
    assert LoadLine(t, users, "", hash) == Some(users);
  }

  // ----- whatever is loaded is clean

  ghost predicate Token(s: string) {
    ' ' !in s && '\n' !in s && NoNul(s) && (s == [] || s[|s| - 1] !in "\t\r")
  }

  lemma {:induction false} SetCategoryClean(t: Table, p: Perms, category: string, value: bool)
    requires AllSubs(Clean, p)
    ensures AllSubs(Clean, SetCategory(t, p, category, value))
    decreases t
  {
    if t != [] {
      var q := if !t[0].isModule && InCategory(t[0], category) then SetCommand(p, t[0].id, value) else p;
      SetCategoryClean(t[1..], q, category, value);
    }
  }

  lemma AddSubClean(p: Perms, id: nat, sub: string)
    requires AllSubs(Clean, p) && Clean(sub)
    ensures AllSubs(Clean, SetBit(AddSub(p, id, sub), id, false))
  {
    hide Clean;
  }

  lemma SubIsClean(c: string, i: nat)
    requires Token(c) && i < |c|
    ensures Clean(c[i..])
  {
  }

  lemma CommandRuleClean(t: Table, p: Perms, c: string)
    requires c != [] && (c[0] == '+' || c[0] == '-') && Token(c) && AllSubs(Clean, p)
    ensures AllSubs(Clean, ApplyCommandRule(t, p, c).0)
  {
    hide SetCategory, Token, Clean;
    if |c| > 1 && c[1] == '@' {
      SetCategoryClean(t, p, Lower(c[2..]), c[0] == '+');
    } else {
      var bar := IndexOf(c[1..], '|');
      if c[0] == '+' && bar < |c[1..]| {
        SubCommandClean(t, p, c, bar);
      }
    }
  }

  lemma SubCommandClean(t: Table, p: Perms, c: string, bar: nat)
    requires c != [] && c[0] == '+' && Token(c) && AllSubs(Clean, p)
    requires |c| > 1 && c[1] != '@' && bar == IndexOf(c[1..], '|') < |c[1..]|
    ensures AllSubs(Clean, ApplyCommandRule(t, p, c).0)
  {
    hide Token, Clean, AllSubs, AddSub;
    var cmd := Find(t, c[1..][..bar]);
    var sub := c[1..][bar + 1..];
    if cmd.Some? && sub != [] {
      assert sub == c[bar + 2..];
      SubIsClean(c, bar + 2);
      AddSubClean(p, cmd.value.id, sub);
    }
  }

  lemma SetUserClean(t: Table, u: User, op: string, hash: string -> string)
    requires Token(op) && AllSubs(Clean, u.perms)
    ensures AllSubs(Clean, SetUser(t, u, op, hash).0.perms)
  {
    CStrIsWhole(op);
    if op != [] && (op[0] == '+' || op[0] == '-') {
      CommandRuleClean(t, u.perms, op);
    }
    hide ApplyCommandRule, ApplyPassword, ApplyPattern;
  }

  lemma {:induction false} ApplyAllClean(t: Table, u: User, rules: seq<string>, hash: string -> string)
    requires AllSubs(Clean, u.perms) && forall x :: x in rules ==> Token(x)
    ensures var v := ApplyAll(t, u, rules, hash); v.Some? ==> AllSubs(Clean, v.value.perms)
    decreases rules
  {
    if rules != [] {
      assert rules[0] in rules;
      SetUserClean(t, u, rules[0], hash);
      ApplyAllClean(t, SetUser(t, u, rules[0], hash).0, rules[1..], hash);
    }
  }

  lemma TokensOf(line: string)
    requires '\n' !in line && NoNul(line)
    ensures var args := Split(Trim(line, " \t\r\n"), ' ');
      |args| >= 2 ==> forall x :: x in TrimAll(args[2..]) ==> Token(x)
  {
    var text := Trim(line, " \t\r\n");
    TrimPiece(line, " \t\r\n");
    SplitPieces(text, ' ');
    var args := Split(text, ' ');
    if |args| >= 2 {
      forall i | 0 <= i < |args[2..]|
        ensures Token(Trim(args[2..][i], "\t\r\n"))
      {
        assert args[2..][i] in args;
        TrimPiece(args[2..][i], "\t\r\n");
      }
    }
  }

  ghost predicate UsersClean(users: Users) {
    forall n :: n in users ==> AllSubs(Clean, users[n].perms)
  }

  lemma LoadLineClean(t: Table, users: Users, line: string, hash: string -> string)
    requires UsersClean(users) && '\n' !in line && NoNul(line)
    ensures var r := LoadLine(t, users, line, hash); r.Some? ==> UsersClean(r.value)
  {
    hide Trim, Split, TrimAll, ApplyAll, Token, HasSpaces;
    TokensOf(line);
    var args := Split(Trim(line, " \t\r\n"), ' ');
    if |args| >= 2 {
      ApplyAllClean(t, Fresh(), TrimAll(args[2..]), hash);
    }
  }

  lemma {:induction false} LoadLinesClean(t: Table, users: Users, lines: seq<string>, hash: string -> string)
    requires UsersClean(users) && forall x :: x in lines ==> '\n' !in x && NoNul(x)
    ensures var r := LoadLines(t, users, lines, hash); r.Some? ==> UsersClean(r.value)
    decreases lines
  {
    hide LoadLine, UsersClean;
    if lines != [] {
      assert lines[0] in lines;
      LoadLineClean(t, users, lines[0], hash);
      var next := LoadLine(t, users, lines[0], hash);
      if next.Some? { LoadLinesClean(t, next.value, lines[1..], hash); }
    }
  }

  /** No text gives any user a subcommand that would not survive the file. */
  lemma LoadedIsClean(t: Table, text: string, hash: string -> string)
    requires NoNul(text)
    ensures var r := LoadFile(t, text, hash); r.Some? ==> UsersClean(r.value)
  {
    SplitPieces(text, '\n');
    LoadLinesClean(t, Initial(), if text == "" then [] else Split(text, '\n'), hash);
  }

  // ----- main result

  lemma {:induction false} JoinNoNul(rules: seq<string>)
    requires rules != [] && All(NoNul, rules)
    ensures NoNul(Join(rules))
  {
    assert rules[0] in rules;
    if |rules| > 1 {
      assert forall x :: x in rules[1..] ==> x in rules;
      JoinNoNul(rules[1..]);
    }
  }

  lemma {:induction false} SubsNoNul(t: Table, p: Perms)
    requires PermsOk(t, p)
    ensures AllSubs(NoNul, p)
  {
    forall id, i | id in p.subs && 0 <= i < |p.subs[id]|
      ensures NoNul(p.subs[id][i])
    {
      assert ListOk(p.subs[id]) && SubOk(p.subs[id][i]);
    }
  }

  lemma DescribedNoNul(t: Table, u: User)
    requires UserOk(t, u) && NamesAreWords(t)
    ensures All(NoNul, Describe(t, u))
  {
    CleanReads();
    SubsNoNul(t, u.perms);
    DescribeReads(NoNul, NoNul, t, u);
  }

  lemma {:induction false} FileNoNul(t: Table, accounts: seq<Account>)
    requires Saved(t, accounts) && NamesAreWords(t)
    ensures NoNul(SaveFile(t, accounts))
  {
    hide Describe, UserOk, HasSpaces, NamesAreWords;
    if accounts != [] {
      var a := accounts[0];
      assert a in accounts;
      DescribedIsNotEmpty(t, a.user);
      DescribedNoNul(t, a.user);
      JoinNoNul(Describe(t, a.user));
      NameIsWord(a.name);
      assert forall b :: b in accounts[1..] ==> b in accounts;
      FileNoNul(t, accounts[1..]);
    }
  }

  lemma WholeIfClean(t: Table, u: User)
    requires UserOk(t, u) && NamesAreWords(t) && AllSubs(Clean, u.perms)
    ensures Whole(Describe(t, u))
  {
    CleanReads();
    DescribeReads(CleanRule, Clean, t, u);
    DescribedNoNul(t, u);
    DescribedIsNotEmpty(t, u);
  }

  ghost predicate DistinctNames(accounts: seq<Account>) {
    forall i, j :: 0 <= i < j < |accounts| ==> accounts[i].name != accounts[j].name
  }

  /** `users` are the accounts, each with the flag that its command bits call for. */
  ghost predicate Restores(users: Users, accounts: seq<Account>) {
    && (forall a :: a in accounts ==> a.name in users && users[a.name] == Restored(a.user))
    && forall n :: n in users ==> exists a :: a in accounts && a.name == n
  }

  lemma {:induction false} AddedKeeps(users: Users, accounts: seq<Account>, n: string)
    requires forall a :: a in accounts ==> a.name != n
    ensures (n in Added(users, accounts) <==> n in users) && (n in users ==> Added(users, accounts)[n] == users[n])
    decreases accounts
  {
    if accounts != [] {
      assert accounts[0] in accounts;
      AddedKeeps(users[accounts[0].name := Restored(accounts[0].user)], accounts[1..], n);
    }
  }

  lemma {:induction false} AddedHas(users: Users, accounts: seq<Account>, a: Account)
    requires DistinctNames(accounts) && a in accounts
    ensures a.name in Added(users, accounts) && Added(users, accounts)[a.name] == Restored(a.user)
    decreases accounts
  {
    var next := users[accounts[0].name := Restored(accounts[0].user)];
    if a == accounts[0] {
      AddedKeeps(next, accounts[1..], a.name);
    } else {
      AddedHas(next, accounts[1..], a);
    }
  }

  lemma AddedRestores(accounts: seq<Account>)
    requires DistinctNames(accounts) && exists a :: a in accounts && a.name == "default"
    ensures Restores(Added(Initial(), accounts), accounts)
  {
    var users := Added(Initial(), accounts);
    forall a | a in accounts
      ensures a.name in users && users[a.name] == Restored(a.user)
    {
      AddedHas(Initial(), accounts, a);
    }
    forall n | n in users
      ensures exists a :: a in accounts && a.name == n
    {
      if forall a :: a in accounts ==> a.name != n {
        AddedKeeps(Initial(), accounts, n);
      }
    }
  }

  /** Users that rules led to, under distinct names without blanks, the default user among them. */
  ghost predicate Known(t: Table, accounts: seq<Account>, hash: string -> string) {
    && DistinctNames(accounts) && (exists a :: a in accounts && a.name == "default")
    && forall a :: a in accounts ==> !HasSpaces(a.name) && exists ops :: a.user == Reached(t, ops, hash)
  }

  lemma KnownIsSaved(t: Table, accounts: seq<Account>, hash: string -> string)
    requires TableOk(t) && HashOk(hash) && Known(t, accounts, hash)
    ensures Saved(t, accounts)
  {
    forall a | a in accounts
      ensures UserOk(t, a.user)
    {
      var ops :| a.user == Reached(t, ops, hash);
      ReachedIsOk(t, ops, hash);
    }
  }

  lemma CleanFileLoads(t: Table, accounts: seq<Account>, hash: string -> string)
    requires TableOk(t) && HashOk(hash) && NamesAreWords(t) && Known(t, accounts, hash)
    requires forall a :: a in accounts ==> AllSubs(Clean, a.user.perms)
    ensures var r := LoadFile(t, SaveFile(t, accounts), hash); r.Some? && Restores(r.value, accounts)
  {
    KnownIsSaved(t, accounts, hash);
    AddedRestores(accounts);
    hide TableOk, HashOk, NamesAreWords, Restores, LoadLines, Split, Describe, UserOk;
    forall a | a in accounts
      ensures Whole(Describe(t, a.user))
    {
      WholeIfClean(t, a.user);
    }
    FileLoads(t, Initial(), accounts, hash);
    assert accounts != [];
  }

  lemma UncleanFileDiffers(t: Table, accounts: seq<Account>, hash: string -> string, a: Account)
    requires TableOk(t) && HashOk(hash) && NamesAreWords(t) && Known(t, accounts, hash)
    requires a in accounts && !AllSubs(Clean, a.user.perms)
    ensures var r := LoadFile(t, SaveFile(t, accounts), hash); !(r.Some? && Restores(r.value, accounts))
  {
    KnownIsSaved(t, accounts, hash);
    FileNoNul(t, accounts);
    LoadedIsClean(t, SaveFile(t, accounts), hash);
    hide LoadFile, SaveFile, TableOk, HashOk, NamesAreWords, Known;
    assert Restored(a.user).perms.subs == a.user.perms.subs;
  }

  /** The file of reachable users loads without an error and gives every one of them back exactly
      when none of their allowed subcommands contains a space or a newline or ends in a tab or a
      carriage return. */
  lemma TextRoundTrip(t: Table, accounts: seq<Account>, hash: string -> string)
    requires TableOk(t) && HashOk(hash) && NamesAreWords(t) && Known(t, accounts, hash)
    ensures var r := LoadFile(t, SaveFile(t, accounts), hash);
      (r.Some? && Restores(r.value, accounts)) <==> forall a :: a in accounts ==> AllSubs(Clean, a.user.perms)
  {
    hide LoadFile, SaveFile, TableOk, HashOk, NamesAreWords, Known, Restores, AllSubs;
    if a :| a in accounts && !AllSubs(Clean, a.user.perms) {
      UncleanFileDiffers(t, accounts, hash, a);
    } else {
      CleanFileLoads(t, accounts, hash);
    }
  }

  // ----- users whose round trip is not exact

  const GET: Table := [Cmd("get", 0, {"read"}, false)]

  lemma GetTableOk()
    ensures TableOk(GET) && NamesAreWords(GET)
  {
    assert Ids(GET) == {0};
  }

  lemma ReachedByOneMore(t: Table, ops: seq<string>, op: string, hash: string -> string, v: User)
    requires Replays(t, Reached(t, ops, hash), [op], hash, v)
    ensures Reached(t, ops + [op], hash) == v
  {
    hide SetUser;
    assert (ops + [op])[..|ops|] == ops;
  }

  lemma ReaddedCommand(hash: string -> string)
    ensures var p := Reached(GET, ["+@all", "-get", "+get"], hash).perms; AllSet(p.bits) && !p.allcommands
  {
    hide Reached, Replays, TableOk;
    var c := GET[0];
    GetTableOk();
    var u1 := Fresh().(perms := StartPerms(false));
    var u2 := u1.(perms := SetCommand(u1.perms, c.id, false));
    StartRule(GET, Fresh().auth, Fresh().perms, false, hash);
    ReachedFresh(GET, hash);
    ReachedByOneMore(GET, [], "+@all", hash, u1);
    assert [] + ["+@all"] == ["+@all"] && ["+@all"] + ["-get"] == ["+@all", "-get"];
    CommandRule(GET, u1, c, false, hash);
    assert "-" + c.name == "-get" && "+" + c.name == "+get";
    ReachedByOneMore(GET, ["+@all"], "-get", hash, u2);
    CommandRule(GET, u2, c, true, hash);
    ReachedByOneMore(GET, ["+@all", "-get"], "+get", hash, u2.(perms := SetCommand(u2.perms, c.id, true)));
    assert ["+@all", "-get"] + ["+get"] == ["+@all", "-get", "+get"];
  }

  lemma ReachedFresh(t: Table, hash: string -> string)
    ensures Reached(t, [], hash) == Fresh()
  {
  }

  /** Removing a command and adding it back leaves every bit set but not the flag, and replaying the
      description sets it. */
  lemma FlagIsGained(hash: string -> string)
    requires HashOk(hash)
    ensures var u := Reached(GET, ["+@all", "-get", "+get"], hash);
      !u.perms.allcommands
      && Replays(GET, Fresh(), Describe(GET, u), hash, u.(perms := u.perms.(allcommands := true)))
  {
    hide Describe, TableOk, AllSet, Reached, Replays;
    ReaddedCommand(hash);
    GetTableOk();
    RoundTrip(GET, ["+@all", "-get", "+get"], hash);
  }

  /** A rule is accepted whatever blanks its subcommand contains. */
  lemma BlankIsAccepted(sub: string, hash: string -> string)
    requires SubOk(sub)
    ensures var p := Reached(GET, ["+get|" + sub], hash).perms; 0 in p.subs && p.subs[0] == [sub]
  {
    var ops := ["+get|" + sub];
    assert ops[..0] == [];
    var c := GET[0];
    GetTableOk();
    SubRule(GET, Fresh(), c, sub, hash);
    assert SubRuleText(c.name, sub) == "+get|" + sub;
    assert Reached(GET, ops, hash).perms == SetBit(AddSub(Fresh().perms, 0, sub), 0, false);
  }

  lemma BlanksAreUnclean()
    ensures forall sub :: sub in ["a b", "a\nb", "a\t", "a\r"] ==> SubOk(sub) && !Clean(sub)
  {
    assert "a b"[1] == ' ' && "a\nb"[1] == '\n';
  }

  lemma OneAccount(u: User, ops: seq<string>, hash: string -> string)
    requires u == Reached(GET, ops, hash)
    ensures Known(GET, [Account("default", u)], hash)
  {
    hide Reached;
    var accounts := [Account("default", u)];
    assert accounts[0] in accounts && !HasSpaces("default");
  }

  /** A user with an unclean subcommand is accepted, saved and not read back. */
  lemma BlankIsLost(sub: string, hash: string -> string)
    requires HashOk(hash) && SubOk(sub) && !Clean(sub)
    ensures var accounts := [Account("default", Reached(GET, ["+get|" + sub], hash))];
      && Known(GET, accounts, hash)
      && var r := LoadFile(GET, SaveFile(GET, accounts), hash); !(r.Some? && Restores(r.value, accounts))
  {
    hide LoadFile, SaveFile, Restores, TableOk, NamesAreWords, Known, Reached, SubOk, Clean;
    var u := Reached(GET, ["+get|" + sub], hash);
    var accounts := [Account("default", u)];
    BlankIsAccepted(sub, hash);
    assert !AllSubs(Clean, u.perms) by {
      assert !Clean(u.perms.subs[0][0]);
    }
    GetTableOk();
    OneAccount(u, ["+get|" + sub], hash);
    assert accounts[0] in accounts;
    UncleanFileDiffers(GET, accounts, hash, accounts[0]);
  }
}
