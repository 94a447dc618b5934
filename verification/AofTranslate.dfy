/** What feedAppendOnlyFile writes for a command: relative expires become absolute ones, so a command
    that sets a value with a time to live becomes two commands. */
module AofTranslate {
  import opened Common
  import opened AofFormat
  import opened AofLoad

  /** ll2string. */
  function IntText(n: int): Bytes {
    if n < 0 then "-" + Dec(-n) else Dec(n)
  }

  lemma ParseIntText(n: int)
    ensures ParseInt(IntText(n)) == n
  {
    ParseDec(if n < 0 then -n else n);
  }

  predicate IsExpire(c: Command) { Named(c, "expire") || Named(c, "pexpire") || Named(c, "expireat") }
  predicate IsSetEx(c: Command) { Named(c, "setex") || Named(c, "psetex") }
  predicate IsSet(c: Command) { Named(c, "set") }

  /** The absolute time in milliseconds that a time argument of command `name` stands for. */
  function When(name: Bytes, time: Bytes, now: int): int {
    var n := ParseInt(time);
    var ms := if name == "expire" || name == "setex" || name == "expireat" then n * 1000 else n;
    if name == "expireat" then ms else ms + now
  }

  function ExpireAt(key: Bytes, when: int): Command {
    ["PEXPIREAT", key, IntText(when)]
  }

  /** The argument that follows the last occurrence of an option, from position `i` on. */
  function OptionArg(c: Command, i: nat, name: Bytes): Option<Bytes>
    decreases |c| - i
  {
    if i + 1 >= |c| then None
    else
      var later := OptionArg(c, i + 1, name);
      if later.None? && Lower(c[i]) == name then Some(c[i + 1]) else later
  }

  /** The commands that are written for `c`, executed at time `now`. */
  function Translate(c: Command, now: int): (parts: seq<Command>)
    ensures parts != []
  {
    if IsExpire(c) && |c| >= 3 then [ExpireAt(c[1], When(Lower(c[0]), c[2], now))]
    else if IsSetEx(c) && |c| >= 4 then
      [["SET", c[1], c[3]], ExpireAt(c[1], When(Lower(c[0]), c[2], now))]
    else if IsSet(c) && |c| > 3 && (OptionArg(c, 3, "ex").Some? || OptionArg(c, 3, "px").Some?) then
      var ex, px := OptionArg(c, 3, "ex"), OptionArg(c, 3, "px");
      [c[..3]]
      + (if ex.Some? then [ExpireAt(c[1], When("expire", ex.value, now))] else [])
      + (if px.Some? then [ExpireAt(c[1], When("pexpire", px.value, now))] else [])
    else [c]
  }

  lemma Literals()
    ensures Lower("PEXPIREAT") == "pexpireat" && Lower("SET") == "set"
  {
  }

  lemma ExpireAtIsStable(key: Bytes, when: int, later: int)
    ensures Translate(ExpireAt(key, when), later) == [ExpireAt(key, when)]
  {
    Literals();
  }

  lemma ShortSetIsStable(c: Command, later: int)
    requires IsSet(c) && |c| == 3
    ensures Translate(c, later) == [c]
  {
  }

  /** What is written does not depend on when it is read: written again at any later time, each
      command would be written unchanged. */
  lemma TranslateIsStable(c: Command, now: int, later: int, i: nat)
    requires i < |Translate(c, now)|
    ensures Translate(Translate(c, now)[i], later) == [Translate(c, now)[i]]
  {
    Literals();
    var p := Translate(c, now)[i];
    if Named(p, "pexpireat") && |p| == 3 && p != c {
      assert exists when :: p == ExpireAt(c[1], when);
      var when :| p == ExpireAt(c[1], when);
      ExpireAtIsStable(c[1], when, later);
    } else if IsSet(p) && |p| == 3 {
      ShortSetIsStable(p, later);
    }
  }

  /** A time to live is written as the moment it ends, whatever the unit it was given in. */
  lemma ExpiresAreAbsolute(c: Command, now: int)
    requires (IsExpire(c) && |c| >= 3) || (IsSetEx(c) && |c| >= 4)
    ensures var last := Translate(c, now)[|Translate(c, now)| - 1];
      && |last| == 3 && last[1] == c[1]
      && ParseInt(last[2]) ==
         (if Named(c, "pexpire") || Named(c, "psetex") then 1 else 1000) * ParseInt(c[2])
         + (if Named(c, "expireat") then 0 else now)
  {
    ParseIntText(When(Lower(c[0]), c[2], now));
  }

  // ----- what is written, by position

  /** Position `i` holds the last occurrence of an option of SET that has an argument. */
  ghost predicate LastOption(c: Command, name: Bytes, i: int) {
    && 3 <= i && i + 1 < |c| && Lower(c[i]) == name
    && forall j :: i < j && j + 1 < |c| ==> Lower(c[j]) != name
  }

  ghost predicate HasOption(c: Command, name: Bytes) {
    exists j :: 3 <= j && j + 1 < |c| && Lower(c[j]) == name
  }

  lemma {:induction false} OptionArgAt(c: Command, from: nat, name: Bytes, i: int)
    requires 3 <= from <= i && LastOption(c, name, i)
    ensures OptionArg(c, from, name) == Some(c[i + 1])
    decreases i - from
  {
    if from < i { OptionArgAt(c, from + 1, name, i); } else { OptionArgNone(c, from + 1, name); }
  }

  lemma {:induction false} OptionArgNone(c: Command, from: nat, name: Bytes)
    requires forall j :: from <= j && j + 1 < |c| ==> Lower(c[j]) != name
    ensures OptionArg(c, from, name).None?
    decreases |c| - from
  {
    if from + 1 < |c| { OptionArgNone(c, from + 1, name); }
  }

  /** An option that occurs has a last occurrence. */
  lemma {:induction false} LastOptionExists(c: Command, name: Bytes, j: int)
    requires 3 <= j && j + 1 < |c| && Lower(c[j]) == name
    ensures exists i :: LastOption(c, name, i)
    decreases |c| - j
  {
    if k :| j < k && k + 1 < |c| && Lower(c[k]) == name {
      LastOptionExists(c, name, k);
    } else {
      assert LastOption(c, name, j);
    }
  }

  lemma OptionArgIs(c: Command, name: Bytes)
    ensures OptionArg(c, 3, name).Some? <==> HasOption(c, name)
    ensures forall i :: LastOption(c, name, i) ==> OptionArg(c, 3, name) == Some(c[i + 1])
  {
    forall i | LastOption(c, name, i) ensures OptionArg(c, 3, name) == Some(c[i + 1]) {
      OptionArgAt(c, 3, name, i);
    }
    if HasOption(c, name) {
      var j :| 3 <= j && j + 1 < |c| && Lower(c[j]) == name;
      LastOptionExists(c, name, j);
    } else {
      OptionArgNone(c, 3, name);
    }
  }

  /** A command that makes the key expire at that moment, in milliseconds. */
  ghost predicate Expires(p: Command, key: Bytes, when: int) {
    |p| == 3 && Named(p, "pexpireat") && p[1] == key && ParseInt(p[2]) == when
  }

  /** SET with a time to live: the plain SET, then the moment at which the key goes. */
  ghost predicate SetThenExpires(parts: seq<Command>, set3: Command, when: int)
    requires |set3| == 3
  {
    |parts| == 2 && parts[0] == set3 && Expires(parts[1], set3[1], when)
  }

  /** What has to be in the file for a command: the value as it is, and every time to live as the
      moment it ends, whatever the unit it was given in. */
  ghost predicate Written(c: Command, now: int, parts: seq<Command>) {
    if IsExpire(c) && |c| >= 3 then
      var n := ParseInt(c[2]);
      |parts| == 1 && Expires(parts[0], c[1],
        if Named(c, "expire") then now + 1000 * n else if Named(c, "pexpire") then now + n else 1000 * n)
    else if IsSetEx(c) && |c| >= 4 then
      SetThenExpires(parts, ["SET", c[1], c[3]], now + (if Named(c, "setex") then 1000 else 1) * ParseInt(c[2]))
    else if IsSet(c) && |c| > 3 then
      && (forall i :: LastOption(c, "ex", i) ==> SetThenExpires(parts, c[..3], now + 1000 * ParseInt(c[i + 1])))
      && (forall i :: LastOption(c, "px", i) ==> SetThenExpires(parts, c[..3], now + ParseInt(c[i + 1])))
      && (!HasOption(c, "ex") && !HasOption(c, "px") ==> parts == [c])
    else parts == [c]
  }

  lemma ExpireAtExpires(name: Bytes, key: Bytes, time: Bytes, now: int)
    ensures Expires(ExpireAt(key, When(name, time, now)), key, When(name, time, now))
  {
    Literals();
    ParseIntText(When(name, time, now));
  }

  /** SET refuses EX together with PX, so at most one of them is here. */
  lemma SetIsWritten(c: Command, now: int)
    requires IsSet(c) && |c| > 3 && !(HasOption(c, "ex") && HasOption(c, "px"))
    ensures Written(c, now, Translate(c, now))
  {
    hide OptionArg, HasOption, Expires, IntText, ParseInt;
    OptionArgIs(c, "ex");
    OptionArgIs(c, "px");
    var ex, px := OptionArg(c, 3, "ex"), OptionArg(c, 3, "px");
    if ex.Some? { ExpireAtExpires("expire", c[1], ex.value, now); }
    if px.Some? { ExpireAtExpires("pexpire", c[1], px.value, now); }
  }

  lemma TranslateIsWritten(c: Command, now: int)
    requires !(IsSet(c) && HasOption(c, "ex") && HasOption(c, "px"))
    ensures Written(c, now, Translate(c, now))
  {
    hide OptionArg, HasOption, Expires, IntText, ParseInt;
    if IsSet(c) && |c| > 3 {
      SetIsWritten(c, now);
    } else if (IsExpire(c) && |c| >= 3) || (IsSetEx(c) && |c| >= 4) {
      ExpireAtExpires(Lower(c[0]), c[1], c[2], now);
    }
  }

  /** catAppendOnlyExpireAtCommand. */
  method CatExpireAt(buf: Bytes, name: Bytes, key: Bytes, time: Bytes, now: int) returns (r: Bytes)
    ensures r == buf + Encode(ExpireAt(key, When(name, time, now)))
  {
    var when := ParseNumber(time);
    if name == "expire" || name == "setex" || name == "expireat" {
      when := when * 1000;
    }
    if name != "expireat" {
      when := when + now;
    }
    r := CatGenericCommand(buf, ["PEXPIREAT", key, IntText(when)]);
  }

  /** The loop over the options of SET. */
  method FindExpire(c: Command) returns (ex: Option<Bytes>, px: Option<Bytes>)
    requires |c| > 3
    ensures ex == OptionArg(c, 3, "ex") && px == OptionArg(c, 3, "px")
  {
    ex, px := None, None;
    for i := 3 to |c| - 1
      invariant OptionArg(c, 3, "ex") == (var later := OptionArg(c, i, "ex"); if later.None? then ex else later)
      invariant OptionArg(c, 3, "px") == (var later := OptionArg(c, i, "px"); if later.None? then px else later)
    {
      if Lower(c[i]) == "ex" { ex := Some(c[i + 1]); }
      if Lower(c[i]) == "px" { px := Some(c[i + 1]); }
    }
  }

  lemma EncodeTwo(a: Command, b: Command)
    ensures EncodeAll([a]) == Encode(a) && EncodeAll([a, b]) == Encode(a) + Encode(b)
  {
    assert [a][1..] == [] && [a, b][1..] == [b] && [b][1..] == [];
  }

  /** The translation of feedAppendOnlyFile. A SET with both options is refused before it gets here. */
  method CatTranslated(buf: Bytes, c: Command, now: int) returns (r: Bytes)
    requires !(IsSet(c) && HasOption(c, "ex") && HasOption(c, "px"))
    ensures r == buf + EncodeAll(Translate(c, now)) && Written(c, now, Translate(c, now))
  {
    hide Encode, EncodeAll, When, OptionArg, IntText, HasOption, Written;
    TranslateIsWritten(c, now);
    if IsExpire(c) && |c| >= 3 {
      EncodeTwo(ExpireAt(c[1], When(Lower(c[0]), c[2], now)), c);
      r := CatExpireAt(buf, Lower(c[0]), c[1], c[2], now);
    } else if IsSetEx(c) && |c| >= 4 {
      EncodeTwo(["SET", c[1], c[3]], ExpireAt(c[1], When(Lower(c[0]), c[2], now)));
      r := CatGenericCommand(buf, ["SET", c[1], c[3]]);
      r := CatExpireAt(r, Lower(c[0]), c[1], c[2], now);
    } else if IsSet(c) && |c| > 3 {
      r := CatSet(buf, c, now);
    } else {
      EncodeTwo(c, c);
      r := CatGenericCommand(buf, c);
    }
  }

  method CatSet(buf: Bytes, c: Command, now: int) returns (r: Bytes)
    requires IsSet(c) && |c| > 3
    requires !(HasOption(c, "ex") && HasOption(c, "px"))
    ensures r == buf + EncodeAll(Translate(c, now))
  {
    hide Encode, EncodeAll, When, OptionArg, IntText, HasOption;
    OptionArgIs(c, "ex");
    OptionArgIs(c, "px");
    var ex, px := FindExpire(c);
    EncodeTwo(c, c);
    if ex.Some? {
      EncodeTwo(c[..3], ExpireAt(c[1], When("expire", ex.value, now)));
      r := CatGenericCommand(buf, c[..3]);
      r := CatExpireAt(r, "expire", c[1], ex.value, now);
      assert Translate(c, now) == [c[..3], ExpireAt(c[1], When("expire", ex.value, now))];
    } else if px.Some? {
      EncodeTwo(c[..3], ExpireAt(c[1], When("pexpire", px.value, now)));
      r := CatGenericCommand(buf, c[..3]);
      r := CatExpireAt(r, "pexpire", c[1], px.value, now);
      assert Translate(c, now) == [c[..3], ExpireAt(c[1], When("pexpire", px.value, now))];
    } else {
      r := CatGenericCommand(buf, c);
    }
  }
}
