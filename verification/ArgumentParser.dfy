/** The arguments of a sidecar request (sidecar_server.py). */
module ArgumentParser {

  /** The value of a flag: a token or, for a flag without a value, true. */
  datatype FlagValue = Text(token: string) | True

  type Flags = map<string, FlagValue>

  predicate IsFlag(token: string) {
    |token| >= 2 && token[0] == '-' && token[1] == '-'
  }

  function Replace(s: string, from: char, to: char): (r: string)
    ensures |r| == |s| && forall i :: 0 <= i < |s| ==> r[i] == if s[i] == from then to else s[i]
  {
    seq(|s|, i requires 0 <= i < |s| => if s[i] == from then to else s[i])
  }

  function FlagName(token: string): string
    requires IsFlag(token)
  {
    Replace(token[2..], '-', '_')
  }

  // ----- What the tokens say -----

  datatype Item = Positional(token: string) | Flag(token: string) | FlagWithValue(token: string, value: string)

  /** The tokens an item was read from. */
  function TokensOf(item: Item): seq<string> {
    match item
    case Positional(t) => [t]
    case Flag(t) => [t]
    case FlagWithValue(t, v) => [t, v]
  }

  function Tokens(items: seq<Item>): seq<string> {
    if items == [] then [] else TokensOf(items[0]) + Tokens(items[1..])
  }

  /** The item that starts with the first token. */
  function FirstItem(args: seq<string>): (item: Item)
    requires args != []
    ensures item.Positional? <==> !IsFlag(args[0])
  {
    if !IsFlag(args[0]) then Positional(args[0])
    else if |args| > 1 && !IsFlag(args[1]) then FlagWithValue(args[0], args[1])
    else Flag(args[0])
  }

  function Width(item: Item): nat {
    if item.FlagWithValue? then 2 else 1
  }

  function Items(args: seq<string>): (items: seq<Item>)
    ensures AreWellTagged(items)
    decreases |args|
  {
    if args == [] then [] else [FirstItem(args)] + Items(args[Width(FirstItem(args))..])
  }

  predicate AreWellTagged(items: seq<Item>) {
    forall k :: 0 <= k < |items| ==> (items[k].Positional? <==> !IsFlag(items[k].token))
  }

  lemma FirstItemIsRead(args: seq<string>)
    requires args != []
    ensures Width(FirstItem(args)) <= |args| && TokensOf(FirstItem(args)) == args[..Width(FirstItem(args))]
  {
    hide IsFlag;
    if FirstItem(args).FlagWithValue? {
      assert args[..2] == [args[0], args[1]];
    } else {
      assert args[..1] == [args[0]];
    }
  }

  lemma ItemsOfNonempty(args: seq<string>)
    requires args != []
    ensures Width(FirstItem(args)) <= |args| && Items(args) == [FirstItem(args)] + Items(args[Width(FirstItem(args))..])
    ensures TokensOf(FirstItem(args)) == args[..Width(FirstItem(args))]
  {
    hide IsFlag, FirstItem, TokensOf, Width, AreWellTagged;
    FirstItemIsRead(args);
  }

  /** Every token is read exactly once, in order. */
  lemma {:induction false} ItemsUseEachTokenOnce(args: seq<string>)
    ensures Tokens(Items(args)) == args
    decreases |args|
  {
    if args != [] {
      ItemsOfNonempty(args);
      hide Items, FirstItem, TokensOf;
      var item := FirstItem(args);
      ItemsUseEachTokenOnce(args[Width(item)..]);
      assert Items(args)[1..] == Items(args[Width(item)..]);
      assert args == args[..Width(item)] + args[Width(item)..];
    }
  }

  function Positionals(items: seq<Item>): seq<string> {
    if items == [] then []
    else
      var front := Positionals(items[..|items| - 1]);
      if items[|items| - 1].Positional? then front + [items[|items| - 1].token] else front
  }

  /** A later flag overrides an earlier one of the same name. */
  function FlagsOf(items: seq<Item>): Flags
    requires AreWellTagged(items)
  {
    if items == [] then map[]
    else
      var front := FlagsOf(items[..|items| - 1]);
      match items[|items| - 1]
      case Positional(_) => front
      case Flag(t) => front[FlagName(t) := True]
      case FlagWithValue(t, v) => front[FlagName(t) := Text(v)]
  }

  lemma Snoc(items: seq<Item>, item: Item)
    requires AreWellTagged(items + [item])
    ensures AreWellTagged(items)
    ensures Positionals(items + [item]) == Positionals(items) + if item.Positional? then [item.token] else []
    ensures FlagsOf(items + [item]) ==
      match item
      case Positional(_) => FlagsOf(items)
      case Flag(t) => FlagsOf(items)[FlagName(t) := True]
      case FlagWithValue(t, v) => FlagsOf(items)[FlagName(t) := Text(v)]
  {
    assert (items + [item])[..|items|] == items && (items + [item])[|items|] == item;
    assert forall k :: 0 <= k < |items| ==> (items + [item])[k] == items[k];
  }

  lemma NextItem(args: seq<string>, i: nat, done: seq<Item>)
    requires i < |args| && done + Items(args[i..]) == Items(args)
    ensures
      var item := FirstItem(args[i..]);
      && i + Width(item) <= |args| && AreWellTagged(done + [item])
      && done + [item] + Items(args[i + Width(item)..]) == Items(args)
  {
    var rest := args[i..];
    ItemsOfNonempty(rest);
    hide Items, FirstItem;
    var item := FirstItem(rest);
    assert rest[Width(item)..] == args[i + Width(item)..];
    Regroup(done, item, Items(rest[Width(item)..]));
    PrefixIsWellTagged(done + [item], Items(rest[Width(item)..]));
  }

  lemma Regroup(done: seq<Item>, item: Item, rest: seq<Item>)
    ensures done + ([item] + rest) == done + [item] + rest
  {
  }

  lemma PrefixIsWellTagged(items: seq<Item>, more: seq<Item>)
    requires AreWellTagged(items + more)
    ensures AreWellTagged(items)
  {
    assert forall k :: 0 <= k < |items| ==> (items + more)[k] == items[k];
  }

  // ----- The arguments, token by token -----

  /** A token with two dashes in front is a flag; behind it, a token without them is its value. */
  predicate IsFlagAt(args: seq<string>, i: nat) {
    i < |args| && "--" <= args[i]
  }

  predicate IsValueAt(args: seq<string>, i: nat) {
    0 < i < |args| && IsFlagAt(args, i - 1) && !IsFlagAt(args, i)
  }

  /** The name of a flag: without the dashes in front, and with underscores for the dashes in it. */
  predicate HasName(args: seq<string>, i: nat, name: string)
    requires i < |args|
  {
    && IsFlagAt(args, i) && |args[i]| == |name| + 2
    && forall k :: 0 <= k < |name| ==> name[k] == if args[i][k + 2] == '-' then '_' else args[i][k + 2]
  }

  /** The positional arguments are the tokens below n that are neither flags nor values, in order. */
  predicate ArePositionals(args: seq<string>, n: nat, places: seq<nat>, positional: seq<string>) {
    && n <= |args| && |positional| == |places|
    && (forall i, j :: 0 <= i < j < |places| ==> places[i] < places[j])
    && (forall i: nat :: i < n ==> (i in places <==> !IsFlagAt(args, i) && !IsValueAt(args, i)))
    && forall k :: 0 <= k < |places| ==> places[k] < n && positional[k] == args[places[k]]
  }

  predicate IsLast(args: seq<string>, n: nat, i: nat, name: string) {
    i < n <= |args| && HasName(args, i, name) && forall j :: i < j < n ==> !HasName(args, j, name)
  }

  function ValueAt(args: seq<string>, i: nat): FlagValue {
    if IsValueAt(args, i + 1) then Text(args[i + 1]) else True
  }

  /** The last flag of a name below n counts, with the value behind it if there is one. */
  ghost predicate AreFlags(args: seq<string>, n: nat, flags: Flags) {
    && n <= |args|
    && (forall name <- flags :: exists i: nat :: IsLast(args, n, i, name) && flags[name] == ValueAt(args, i))
    && forall i: nat, name: string :: i < n && HasName(args, i, name) ==> name in flags
  }

  ghost predicate IsReadUpTo(args: seq<string>, n: nat, positional: seq<string>, flags: Flags) {
    && !IsValueAt(args, n) && AreFlags(args, n, flags)
    && exists places :: ArePositionals(args, n, places, positional)
  }

  lemma FlagHasItsName(args: seq<string>, i: nat)
    requires i < |args|
    ensures IsFlag(args[i]) <==> IsFlagAt(args, i)
    ensures IsFlag(args[i]) ==> forall name: string :: HasName(args, i, name) <==> name == FlagName(args[i])
    ensures !IsFlag(args[i]) ==> forall name: string :: !HasName(args, i, name)
  {
    if IsFlag(args[i]) {
      var name := FlagName(args[i]);
      assert forall k :: 0 <= k < |name| ==> args[i][2..][k] == args[i][k + 2];
      assert HasName(args, i, name);
      forall other: string | HasName(args, i, other) ensures other == name {
      }
    }
  }

  /** One more token that is not a positional argument. */
  lemma PassOne(args: seq<string>, i: nat, places: seq<nat>, positional: seq<string>)
    requires ArePositionals(args, i, places, positional) && (IsFlagAt(args, i) || IsValueAt(args, i))
    ensures ArePositionals(args, i + 1, places, positional)
  {
    assert forall k: nat :: k in places ==> k < i;
  }

  lemma TakeOne(args: seq<string>, i: nat, places: seq<nat>, positional: seq<string>)
    requires ArePositionals(args, i, places, positional) && i < |args| && !IsFlagAt(args, i) && !IsValueAt(args, i)
    ensures ArePositionals(args, i + 1, places + [i], positional + [args[i]])
  {
    assert forall k: nat :: k in places + [i] <==> k in places || k == i;
    assert forall k: nat :: k in places ==> k < i;
  }

  lemma NoFlagHere(args: seq<string>, i: nat, flags: Flags)
    requires AreFlags(args, i, flags) && i < |args| && !IsFlagAt(args, i)
    ensures AreFlags(args, i + 1, flags)
  {
    hide ValueAt;
    forall name | name in flags
      ensures exists k: nat :: IsLast(args, i + 1, k, name) && flags[name] == ValueAt(args, k)
    {
      var k: nat :| IsLast(args, i, k, name) && flags[name] == ValueAt(args, k);
      assert IsLast(args, i + 1, k, name);
    }
  }

  lemma FlagHere(args: seq<string>, i: nat, flags: Flags)
    requires AreFlags(args, i, flags) && i < |args| && IsFlag(args[i])
    ensures AreFlags(args, i + 1, flags[FlagName(args[i]) := ValueAt(args, i)])
  {
    hide ValueAt, FlagName, IsFlag, HasName;
    FlagHasItsName(args, i);
    var flag := FlagName(args[i]);
    var more := flags[flag := ValueAt(args, i)];
    assert IsLast(args, i + 1, i, flag);
    forall name | name in more
      ensures exists k: nat :: IsLast(args, i + 1, k, name) && more[name] == ValueAt(args, k)
    {
      if name != flag {
        var k: nat :| IsLast(args, i, k, name) && flags[name] == ValueAt(args, k);
        assert IsLast(args, i + 1, k, name);
      }
    }
  }

  lemma NothingRead(args: seq<string>)
    ensures IsReadUpTo(args, 0, [], map[])
  {
    assert ArePositionals(args, 0, [], []);
  }

  /** What the loop over the tokens does with the one at position i. */
  lemma ReadOn(args: seq<string>, i: nat, positional: seq<string>, flags: Flags)
    requires i < |args| && IsReadUpTo(args, i, positional, flags)
    ensures !IsFlag(args[i]) ==> IsReadUpTo(args, i + 1, positional + [args[i]], flags)
    ensures IsFlag(args[i]) && i + 1 < |args| && !IsFlag(args[i + 1]) ==>
      IsReadUpTo(args, i + 2, positional, flags[FlagName(args[i]) := Text(args[i + 1])])
    ensures IsFlag(args[i]) && (i + 1 == |args| || IsFlag(args[i + 1])) ==>
      IsReadUpTo(args, i + 1, positional, flags[FlagName(args[i]) := True])
  {
    hide AreFlags, ArePositionals, IsFlag, FlagName, HasName;
    FlagHasItsName(args, i);
    var places :| ArePositionals(args, i, places, positional);
    if !IsFlag(args[i]) {
      NoFlagHere(args, i, flags);
      TakeOne(args, i, places, positional);
    } else {
      FlagHere(args, i, flags);
      PassOne(args, i, places, positional);
      if i + 1 < |args| {
        FlagHasItsName(args, i + 1);
        if !IsFlag(args[i + 1]) {
          NoFlagHere(args, i + 1, flags[FlagName(args[i]) := Text(args[i + 1])]);
          PassOne(args, i + 1, places, positional);
        }
      }
    }
  }

  method ParseArgs(args: seq<string>) returns (positional: seq<string>, flags: Flags)
    ensures positional == Positionals(Items(args)) && flags == FlagsOf(Items(args))
    ensures IsReadUpTo(args, |args|, positional, flags)
  {
    hide IsReadUpTo;
    NothingRead(args);
    positional, flags := [], map[];
    ghost var done: seq<Item> := [];
    var i := 0;
    assert args[0..] == args;
    while i < |args|
      invariant i <= |args| && done + Items(args[i..]) == Items(args) && AreWellTagged(done)
      invariant positional == Positionals(done) && flags == FlagsOf(done)
      invariant IsReadUpTo(args, i, positional, flags)
      decreases |args| - i
    {
      hide Items, Positionals, FlagsOf, AreWellTagged, FlagName;
      ghost var item := FirstItem(args[i..]);
      NextItem(args, i, done);
      ReadOn(args, i, positional, flags);
      Snoc(done, item);
      var a := args[i];
      if IsFlag(a) {
        var flag := FlagName(a);
        if i + 1 < |args| && !IsFlag(args[i + 1]) {
          flags := flags[flag := Text(args[i + 1])];
          i := i + 2;
        } else {
          flags := flags[flag := True];
          i := i + 1;
        }
      } else {
        positional := positional + [a];
        i := i + 1;
      }
      done := done + [item];
    }
    assert args[i..] == [] && done + [] == done;
  }

  // ----- Printing and parsing back -----

  datatype NamedFlag = NamedFlag(name: string, value: FlagValue)

  function PrintFlag(flag: NamedFlag): seq<string> {
    ["--" + Replace(flag.name, '_', '-')] + if flag.value.Text? then [flag.value.token] else []
  }

  function PrintFlags(flags: seq<NamedFlag>): seq<string> {
    if flags == [] then [] else PrintFlag(flags[0]) + PrintFlags(flags[1..])
  }

  /** The flags as a dictionary: the last one of a name counts. */
  function FlagMap(flags: seq<NamedFlag>): Flags {
    if flags == [] then map[] else FlagMap(flags[..|flags| - 1])[flags[|flags| - 1].name := flags[|flags| - 1].value]
  }

  /** Underscores stand for dashes in a name, and a value does not look like a flag. */
  predicate IsPrintable(flag: NamedFlag) {
    '-' !in flag.name && (flag.value.Text? ==> !IsFlag(flag.value.token))
  }

  function FlagItem(flag: NamedFlag): Item {
    var token := "--" + Replace(flag.name, '_', '-');
    if flag.value.Text? then FlagWithValue(token, flag.value.token) else Flag(token)
  }

  function FlagItems(flags: seq<NamedFlag>): (r: seq<Item>)
    ensures |r| == |flags| && forall i :: 0 <= i < |r| ==> r[i] == FlagItem(flags[i])
  {
    seq(|flags|, i requires 0 <= i < |flags| => FlagItem(flags[i]))
  }

  function PositionalItems(tokens: seq<string>): (r: seq<Item>)
    ensures |r| == |tokens| && forall i :: 0 <= i < |r| ==> r[i] == Positional(tokens[i])
  {
    seq(|tokens|, i requires 0 <= i < |tokens| => Positional(tokens[i]))
  }

  predicate ArePrintable(flags: seq<NamedFlag>) {
    forall i :: 0 <= i < |flags| ==> IsPrintable(flags[i])
  }

  predicate ArePositional(tokens: seq<string>) {
    forall i :: 0 <= i < |tokens| ==> !IsFlag(tokens[i])
  }

  lemma NameComesBack(flag: NamedFlag)
    requires IsPrintable(flag)
    ensures IsFlag(FlagItem(flag).token) && FlagName(FlagItem(flag).token) == flag.name
  {
    var token := "--" + Replace(flag.name, '_', '-');
    assert token[2..] == Replace(flag.name, '_', '-');
    assert FlagName(token) == flag.name;
  }

  /** A flag without a value is printed in front of another flag or at the end. */
  lemma PrintedFlagsStartWithFlag(flags: seq<NamedFlag>)
    ensures PrintFlags(flags) == [] || IsFlag(PrintFlags(flags)[0])
  {
  }

  lemma {:induction false} ItemsOfFlags(flags: seq<NamedFlag>)
    requires ArePrintable(flags)
    ensures Items(PrintFlags(flags)) == FlagItems(flags)
  {
    if flags != [] {
      var printed, rest := PrintFlags(flags), PrintFlags(flags[1..]);
      PrintedFlagsStartWithFlag(flags[1..]);
      ItemsOfFlags(flags[1..]);
      NameComesBack(flags[0]);
      assert printed[0] == FlagItem(flags[0]).token;
      assert FirstItem(printed) == FlagItem(flags[0]);
      assert printed[Width(FlagItem(flags[0]))..] == rest;
    }
  }

  lemma {:induction false} ItemsOfPrinted(positional: seq<string>, flags: seq<NamedFlag>)
    requires ArePositional(positional) && ArePrintable(flags)
    ensures Items(positional + PrintFlags(flags)) == PositionalItems(positional) + FlagItems(flags)
  {
    if positional == [] {
      assert positional + PrintFlags(flags) == PrintFlags(flags);
      ItemsOfFlags(flags);
    } else {
      ItemsOfPrinted(positional[1..], flags);
      var all := positional + PrintFlags(flags);
      ItemsOfNonempty(all);
      hide Items;
      assert all[1..] == positional[1..] + PrintFlags(flags);
      assert PositionalItems(positional) == [Positional(positional[0])] + PositionalItems(positional[1..]);
    }
  }

  lemma ReadFlag(items: seq<Item>, flag: NamedFlag)
    requires AreWellTagged(items) && IsPrintable(flag)
    ensures AreWellTagged(items + [FlagItem(flag)])
    ensures Positionals(items + [FlagItem(flag)]) == Positionals(items)
    ensures FlagsOf(items + [FlagItem(flag)]) == FlagsOf(items)[flag.name := flag.value]
  {
    hide IsFlag, Replace, FlagName, Positionals, FlagsOf;
    NameComesBack(flag);
    Snoc(items, FlagItem(flag));
  }

  lemma ReadPositional(items: seq<Item>, token: string)
    requires AreWellTagged(items) && !IsFlag(token)
    ensures AreWellTagged(items + [Positional(token)])
    ensures Positionals(items + [Positional(token)]) == Positionals(items) + [token]
    ensures FlagsOf(items + [Positional(token)]) == FlagsOf(items)
  {
    hide IsFlag, Positionals, FlagsOf;
    Snoc(items, Positional(token));
  }

  lemma ReadNothing()
    ensures AreWellTagged([]) && Positionals([]) == [] && FlagsOf([]) == map[]
  {
  }

  lemma {:induction false} ReadItems(positional: seq<string>, flags: seq<NamedFlag>)
    requires ArePositional(positional) && ArePrintable(flags)
    ensures AreWellTagged(PositionalItems(positional) + FlagItems(flags))
    ensures Positionals(PositionalItems(positional) + FlagItems(flags)) == positional
    ensures FlagsOf(PositionalItems(positional) + FlagItems(flags)) == FlagMap(flags)
    decreases |positional| + |flags|
  {
    hide AreWellTagged, Positionals, FlagsOf, FlagItem, IsFlag, IsPrintable;
    var items := PositionalItems(positional) + FlagItems(flags);
    if flags != [] {
      var last := |flags| - 1;
      assert items == PositionalItems(positional) + FlagItems(flags[..last]) + [FlagItem(flags[last])];
      ReadItems(positional, flags[..last]);
      ReadFlag(PositionalItems(positional) + FlagItems(flags[..last]), flags[last]);
    } else if positional != [] {
      var last := |positional| - 1;
      assert items == PositionalItems(positional[..last]) + FlagItems([]) + [Positional(positional[last])];
      ReadItems(positional[..last], []);
      ReadPositional(PositionalItems(positional[..last]) + FlagItems([]), positional[last]);
    } else {
      assert items == [];
      ReadNothing();
    }
  }

  /** Parsing undoes printing. */
  lemma ParsingUndoesPrinting(positional: seq<string>, flags: seq<NamedFlag>)
    requires ArePositional(positional) && ArePrintable(flags)
    ensures Positionals(Items(positional + PrintFlags(flags))) == positional
    ensures FlagsOf(Items(positional + PrintFlags(flags))) == FlagMap(flags)
  {
    ItemsOfPrinted(positional, flags);
    ReadItems(positional, flags);
  }
}
