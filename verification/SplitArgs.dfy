/** Separating positional arguments from flags, so that they may come in any order.
    The client and the daemon have the same loop with different tables. */
module SplitArgs {
  import opened Basics

  /** Which flags take the following argument, and whether a lone dash is a flag. */
  datatype Table = Table(valueFlags: set<string>, dashIsFlag: bool)

  const CLIENT := Table({"-name", "--name", "-n", "-host", "--host", "-remote", "--remote"}, false)
  const DAEMON := Table({"-max", "--max", "-label", "--label"}, true)

  predicate IsFlag(t: Table, a: string) { a != "" && a[0] == '-' && (a != "-" || t.dashIsFlag) }

  predicate TakesValue(t: Table, a: string) { '=' !in a && a in t.valueFlags }

  // ---------- the reference: arguments as a sequence of groups ----------

  datatype Group = Positional(a: string) | Flag(a: string) | Valued(a: string, value: string)

  function Words(g: Group): seq<string> {
    match g case Positional(a) => [a] case Flag(a) => [a] case Valued(a, v) => [a, v]
  }

  function Flatten(gs: seq<Group>): seq<string> {
    if gs == [] then [] else Words(gs[0]) + Flatten(gs[1..])
  }

  function Groups(t: Table, args: seq<string>): (gs: seq<Group>)
    ensures Flatten(gs) == args
  {
    if args == [] then []
    else if !IsFlag(t, args[0]) then [Positional(args[0])] + Groups(t, args[1..])
    else if TakesValue(t, args[0]) && |args| > 1 then
      var rest := Groups(t, args[2..]);
      assert args == [args[0], args[1]] + args[2..];
      [Valued(args[0], args[1])] + rest
    else [Flag(args[0])] + Groups(t, args[1..])
  }

  function Positionals(gs: seq<Group>): seq<string> {
    if gs == [] then []
    else (if gs[0].Positional? then [gs[0].a] else []) + Positionals(gs[1..])
  }

  function FlagGroups(gs: seq<Group>): seq<Group> {
    if gs == [] then []
    else (if gs[0].Positional? then [] else [gs[0]]) + FlagGroups(gs[1..])
  }

  function Split(t: Table, args: seq<string>): (seq<string>, seq<string>) {
    (Positionals(Groups(t, args)), Flatten(FlagGroups(Groups(t, args))))
  }

  // ---------- the loop ----------

  lemma Drop(t: Table, args: seq<string>, i: nat)
    requires i < |args|
    ensures Split(t, args[i..]) ==
            if !IsFlag(t, args[i]) then ([args[i]] + Split(t, args[i + 1..]).0, Split(t, args[i + 1..]).1)
            else if TakesValue(t, args[i]) && i + 1 < |args| then
              (Split(t, args[i + 2..]).0, [args[i], args[i + 1]] + Split(t, args[i + 2..]).1)
            else (Split(t, args[i + 1..]).0, [args[i]] + Split(t, args[i + 1..]).1)
  {
    var rest := args[i..];
    var g := FirstGroup(t, rest);
    var tail := Groups(t, rest[|Words(g)|..]);
    assert Groups(t, rest) == [g] + tail;
    assert rest[|Words(g)|..] == args[i + |Words(g)|..];
    HeadTail(g, tail);
    HeadTail(g, FlagGroups(tail));
    if g.Positional? { assert [] + FlagGroups(tail) == FlagGroups(tail); }
    else { assert [] + Positionals(tail) == Positionals(tail); }
  }

  function FirstGroup(t: Table, args: seq<string>): Group
    requires args != []
  {
    if !IsFlag(t, args[0]) then Positional(args[0])
    else if TakesValue(t, args[0]) && |args| > 1 then Valued(args[0], args[1])
    else Flag(args[0])
  }

  lemma HeadTail(g: Group, gs: seq<Group>)
    ensures Positionals([g] + gs) == (if g.Positional? then [g.a] else []) + Positionals(gs)
    ensures FlagGroups([g] + gs) == (if g.Positional? then [] else [g]) + FlagGroups(gs)
    ensures Flatten([g] + gs) == Words(g) + Flatten(gs)
  {
    assert ([g] + gs)[1..] == gs;
  }

  /** What has been collected, with what the rest will give, is the whole split. */
  predicate SoFar(t: Table, args: seq<string>, i: nat, positional: seq<string>, flags: seq<string>)
    requires i <= |args|
  {
    && Split(t, args).0 == positional + Split(t, args[i..]).0
    && Split(t, args).1 == flags + Split(t, args[i..]).1
  }

  lemma Advance(t: Table, args: seq<string>, i: nat, positional: seq<string>, flags: seq<string>)
    requires i < |args| && SoFar(t, args, i, positional, flags)
    ensures !IsFlag(t, args[i]) ==> SoFar(t, args, i + 1, positional + [args[i]], flags)
    ensures IsFlag(t, args[i]) && !(TakesValue(t, args[i]) && i + 1 < |args|) ==>
              SoFar(t, args, i + 1, positional, flags + [args[i]])
    ensures IsFlag(t, args[i]) && TakesValue(t, args[i]) && i + 1 < |args| ==>
              SoFar(t, args, i + 2, positional, flags + [args[i], args[i + 1]])
  {
    Drop(t, args, i);
    var a := args[i];
    if !IsFlag(t, a) {
      Reassociate(positional, [a], Split(t, args[i + 1..]).0);
    } else if TakesValue(t, a) && i + 1 < |args| {
      Reassociate(flags, [a, args[i + 1]], Split(t, args[i + 2..]).1);
    } else {
      Reassociate(flags, [a], Split(t, args[i + 1..]).1);
    }
  }

  lemma Reassociate<T>(a: seq<T>, b: seq<T>, c: seq<T>)
    ensures a + (b + c) == (a + b) + c
  {
  }

  method SplitLoop(t: Table, args: seq<string>) returns (positional: seq<string>, flags: seq<string>)
    ensures (positional, flags) == Split(t, args)
  {
    positional, flags := [], [];
    var i := 0;
    assert args[0..] == args;
    while i < |args|
      invariant i <= |args| && SoFar(t, args, i, positional, flags)
    {
      Advance(t, args, i, positional, flags);
      var a := args[i];
      i := i + 1;
      if !IsFlag(t, a) {
        positional := positional + [a];
        continue;
      }
      ghost var before := flags;
      flags := flags + [a];
      if '=' !in a && a in t.valueFlags && i < |args| {
        flags := flags + [args[i]];
        i := i + 1;
        assert flags == before + [a, args[i - 1]];
      }
    }
    assert args[i..] == [] && positional + [] == positional && flags + [] == flags;
  }

  // ---------- what splitting keeps ----------

  /** args is pos and flags shuffled together, each in its order. */
  predicate Shuffle(args: seq<string>, pos: seq<string>, flags: seq<string>)
    decreases |args|
  {
    if args == [] then pos == [] && flags == [] else
      (pos != [] && pos[0] == args[0] && Shuffle(args[1..], pos[1..], flags))
      || (flags != [] && flags[0] == args[0] && Shuffle(args[1..], pos, flags[1..]))
  }

  /** No argument is lost, added or reordered among its kind. */
  lemma {:induction false} SplitShuffles(t: Table, args: seq<string>)
    ensures Shuffle(args, Split(t, args).0, Split(t, args).1)
    decreases |args|
  {
    if args != [] {
      Drop(t, args, 0);
      var (pos, flags) := Split(t, args);
      assert args[0..] == args;
      if IsFlag(t, args[0]) && TakesValue(t, args[0]) && |args| > 1 {
        SplitShuffles(t, args[2..]);
        assert args[1..][1..] == args[2..];
        assert flags[1..][1..] == Split(t, args[2..]).1;
        assert flags[1..] != [] && flags[1..][0] == args[1..][0];
        assert Shuffle(args[1..], pos, flags[1..]);
      } else {
        SplitShuffles(t, args[1..]);
        if IsFlag(t, args[0]) { assert flags[1..] == Split(t, args[1..]).1; }
        else { assert pos[1..] == Split(t, args[1..]).0; }
      }
    }
  }

  /** A group as the loop forms it; a flag that takes a value but has none is left hanging. */
  predicate WellFormed(t: Table, g: Group) {
    match g
    case Positional(a) => !IsFlag(t, a)
    case Flag(a) => IsFlag(t, a) && !TakesValue(t, a)
    case Valued(a, _) => IsFlag(t, a) && TakesValue(t, a)
  }

  predicate Hanging(t: Table, g: Group) { g.Flag? && IsFlag(t, g.a) && TakesValue(t, g.a) }

  /** Only the last group may hang. */
  predicate Parsed(t: Table, gs: seq<Group>) {
    forall i :: 0 <= i < |gs| ==> WellFormed(t, gs[i]) || (i == |gs| - 1 && Hanging(t, gs[i]))
  }

  lemma {:induction false} GroupsParsed(t: Table, args: seq<string>)
    ensures Parsed(t, Groups(t, args))
    decreases |args|
  {
    if args != [] {
      if IsFlag(t, args[0]) && TakesValue(t, args[0]) && |args| > 1 { GroupsParsed(t, args[2..]); }
      else { GroupsParsed(t, args[1..]); }
    }
  }

  /** Groups read back from their words are the same groups. */
  lemma {:induction false} GroupsFlatten(t: Table, gs: seq<Group>)
    requires Parsed(t, gs)
    ensures Groups(t, Flatten(gs)) == gs
  {
    if gs != [] {
      GroupsFlatten(t, gs[1..]);
      var args := Flatten(gs);
      assert args == Words(gs[0]) + Flatten(gs[1..]);
      if gs[0].Valued? { assert args[2..] == Flatten(gs[1..]); }
      else { assert args[1..] == Flatten(gs[1..]); }
      assert gs == [gs[0]] + gs[1..];
    }
  }

  // ---------- normal form ----------

  function AsPositionals(pos: seq<string>): seq<Group> {
    if pos == [] then [] else [Positional(pos[0])] + AsPositionals(pos[1..])
  }

  lemma {:induction false} NormalGroups(pos: seq<string>, fs: seq<Group>)
    requires forall g :: g in fs ==> !g.Positional?
    ensures var gs := AsPositionals(pos) + fs;
            Flatten(gs) == pos + Flatten(fs) && Positionals(gs) == pos && FlagGroups(gs) == fs
  {
    if pos == [] {
      assert AsPositionals(pos) + fs == fs && pos + Flatten(fs) == Flatten(fs);
      OnlyFlags(fs);
    } else {
      NormalGroups(pos[1..], fs);
      var rest := AsPositionals(pos[1..]) + fs;
      assert AsPositionals(pos) + fs == [Positional(pos[0])] + rest;
      HeadTail(Positional(pos[0]), rest);
      assert pos == [pos[0]] + pos[1..];
      Reassociate([pos[0]], pos[1..], Flatten(fs));
    }
  }

  lemma {:induction false} NormalParsed(t: Table, pos: seq<string>, fs: seq<Group>)
    requires Parsed(t, fs) && (forall a :: a in pos ==> !IsFlag(t, a))
    ensures Parsed(t, AsPositionals(pos) + fs)
  {
    if pos == [] {
      assert AsPositionals(pos) + fs == fs;
    } else {
      NormalParsed(t, pos[1..], fs);
      assert AsPositionals(pos) + fs == [Positional(pos[0])] + (AsPositionals(pos[1..]) + fs);
    }
  }

  lemma {:induction false} OnlyFlags(fs: seq<Group>)
    requires forall g :: g in fs ==> !g.Positional?
    ensures Positionals(fs) == [] && FlagGroups(fs) == fs
  {
    if fs != [] { OnlyFlags(fs[1..]); }
  }

  lemma {:induction false} FlagsOnly(gs: seq<Group>)
    ensures forall g :: g in FlagGroups(gs) ==> !g.Positional? && g in gs
  {
    if gs != [] { FlagsOnly(gs[1..]); }
  }

  lemma {:induction false} PositionalsPlain(t: Table, gs: seq<Group>)
    requires Parsed(t, gs)
    ensures forall a :: a in Positionals(gs) ==> !IsFlag(t, a)
  {
    if gs != [] { PositionalsPlain(t, gs[1..]); }
  }

  lemma {:induction false} FlagsParsed(t: Table, gs: seq<Group>)
    requires Parsed(t, gs)
    ensures Parsed(t, FlagGroups(gs))
  {
    if gs != [] {
      var g, rest := gs[0], gs[1..];
      FlagsParsed(t, rest);
      if g.Positional? {
        assert [] + FlagGroups(rest) == FlagGroups(rest);
      } else if rest == [] {
        assert [g] + FlagGroups(rest) == [g];
      } else {
        assert WellFormed(t, g);
      }
    }
  }

  /** What the parts of a parsed sequence are. */
  lemma PartsParsed(t: Table, gs: seq<Group>)
    requires Parsed(t, gs)
    ensures Parsed(t, FlagGroups(gs)) && (forall g :: g in FlagGroups(gs) ==> !g.Positional?)
    ensures forall a :: a in Positionals(gs) ==> !IsFlag(t, a)
    ensures (forall g :: g in gs ==> WellFormed(t, g)) ==> forall g :: g in FlagGroups(gs) ==> WellFormed(t, g)
  {
    FlagsOnly(gs);
    PositionalsPlain(t, gs);
    FlagsParsed(t, gs);
  }

  /** Positionals first, flags after: splitting that again gives the same pair, for every argument list. */
  lemma SplitNormalForm(t: Table, args: seq<string>)
    ensures var (pos, flags) := Split(t, args); Split(t, pos + flags) == (pos, flags)
  {
    var gs := Groups(t, args);
    GroupsParsed(t, args);
    PartsParsed(t, gs);
    var pos, fs := Positionals(gs), FlagGroups(gs);
    NormalGroups(pos, fs);
    NormalParsed(t, pos, fs);
    GroupsFlatten(t, AsPositionals(pos) + fs);
  }

  /** Where the positional arguments stand among whole flag groups does not matter, as long as every flag
      that takes a value has one. */
  lemma PlacementDoesNotMatter(t: Table, gs: seq<Group>, gs': seq<Group>)
    requires (forall g :: g in gs ==> WellFormed(t, g)) && (forall g :: g in gs' ==> WellFormed(t, g))
    ensures Split(t, Flatten(gs)) == Split(t, Flatten(gs')) <==>
            Positionals(gs) == Positionals(gs') && FlagGroups(gs) == FlagGroups(gs')
  {
    GroupsFlatten(t, gs);
    GroupsFlatten(t, gs');
    PartsParsed(t, gs);
    PartsParsed(t, gs');
    GroupsFlatten(t, FlagGroups(gs));
    GroupsFlatten(t, FlagGroups(gs'));
  }

  /** A value flag left without a value is where it does matter: an argument moved behind it is eaten. */
  lemma HangingFlagEats(t: Table, flag: string, a: string)
    requires IsFlag(t, flag) && TakesValue(t, flag) && !IsFlag(t, a)
    ensures Split(t, [a, flag]) == ([a], [flag])
    ensures Split(t, [flag, a]) == ([], [flag, a])
  {
    assert [a, flag][1..] == [flag] && [flag][1..] == [] && [flag, a][2..] == [];
    Drop(t, [a, flag], 0);
    Drop(t, [flag], 0);
    Drop(t, [flag, a], 0);
    assert [a, flag][0..] == [a, flag] && [flag][0..] == [flag] && [flag, a][0..] == [flag, a];
    assert Split(t, []) == ([], []);
    assert [a] + [] == [a] && [flag] + [] == [flag] && [flag, a] + [] == [flag, a];
  }

  // ---------- the two programs ----------

  /** "http 3000 -name app" and "http -name app 3000" mean the same to the client, in any order of port and
      flag, whatever the name looks like; and so for the daemon's own value flags. */
  lemma PortAndNameInAnyOrder(t: Table, flag: string, name: string, port: string)
    requires || (t == CLIENT && flag in {"-name", "--name", "-n", "-host", "--host", "-remote", "--remote"})
             || (t == DAEMON && flag in {"-max", "--max", "-label", "--label"})
    requires !IsFlag(t, port)
    ensures Split(t, [port, flag, name]) == ([port], [flag, name])
    ensures Split(t, [flag, name, port]) == ([port], [flag, name])
  {
    ValueFlagsAreFlags(t, flag);
    var gs, gs' := [Positional(port), Valued(flag, name)], [Valued(flag, name), Positional(port)];
    FlattenTwo(Positional(port), Valued(flag, name));
    FlattenTwo(Valued(flag, name), Positional(port));
    PlacementDoesNotMatter(t, gs, gs');
    GroupsFlatten(t, gs);
  }

  lemma ValueFlagsAreFlags(t: Table, flag: string)
    requires (t == CLIENT || t == DAEMON) && flag in t.valueFlags
    ensures IsFlag(t, flag) && TakesValue(t, flag)
  {
  }

  lemma FlattenTwo(g: Group, h: Group)
    ensures Flatten([g, h]) == Words(g) + Words(h)
    ensures Positionals([g, h])
            == (if g.Positional? then [g.a] else []) + (if h.Positional? then [h.a] else [])
    ensures FlagGroups([g, h]) == (if g.Positional? then [] else [g]) + (if h.Positional? then [] else [h])
  {
    assert [g, h] == [g] + [h] && [h] == [h] + [];
    HeadTail(g, [h]);
    HeadTail(h, []);
    assert Words(h) + [] == Words(h);
  }

  /** A lone dash is where they differ: an argument for the client, a flag for the daemon. */
  lemma LoneDash()
    ensures Split(CLIENT, ["-"]) == (["-"], []) && Split(DAEMON, ["-"]) == ([], ["-"])
  {
    assert ["-"][1..] == [];
    assert ["-"][0] == "-" && "-"[0] == '-';
    assert "-" !in DAEMON.valueFlags by { assert forall f :: f in DAEMON.valueFlags ==> |f| > 1; }
    Drop(CLIENT, ["-"], 0);
    Drop(DAEMON, ["-"], 0);
    assert ["-"][0..] == ["-"] && Split(CLIENT, []) == ([], []) && Split(DAEMON, []) == ([], []);
    assert ["-"] + [] == ["-"];
  }

  /** A single argument is a flag exactly if it starts with a dash, known to the program or not, but for the
      client's lone dash. */
  lemma DashMakesFlag(a: string)
    ensures Split(CLIENT, [a]) == if |a| > 1 && a[0] == '-' then ([], [a]) else ([a], [])
    ensures Split(DAEMON, [a]) == if |a| > 0 && a[0] == '-' then ([], [a]) else ([a], [])
  {
    One(CLIENT, a);
    One(DAEMON, a);
  }

  lemma One(t: Table, a: string)
    ensures Split(t, [a]) == if IsFlag(t, a) then ([], [a]) else ([a], [])
  {
    Drop(t, [a], 0);
    assert [a][0..] == [a] && [a][1..] == [] && Split(t, []) == ([], []) && [a] + [] == [a];
  }

  /** A flag that brings its value along, or takes none, leaves the argument after it alone. */
  lemma AttachedValue(t: Table, flag: string, a: string)
    requires |flag| > 1 && flag[0] == '-' && ('=' in flag || flag !in t.valueFlags)
    requires a == "" || a[0] != '-'
    ensures Split(t, [flag, a]) == ([a], [flag])
  {
    Drop(t, [flag, a], 0);
    One(t, a);
    assert [flag, a][0..] == [flag, a] && [flag, a][1..] == [a] && [flag] + [] == [flag];
  }
}
