/**
 * What the first process finds on its stack: the arguments and environment
 * strings cut out of the kernel command line, and the arrays that point to them.
 */
module InitialStack {

  import opened Cmdline

  // ---- Strings written one after the other

  /** The first n strings, each with its terminator. */
  function Flat(ss: seq<string>, n: nat): string
    requires n <= |ss|
  {
    if n == 0 then "" else Flat(ss, n - 1) + ss[n - 1] + [NUL]
  }

  /** Where the i-th of them starts. */
  function Offset(ss: seq<string>, i: nat): (r: nat)
    requires i <= |ss|
    ensures r == |Flat(ss, i)|
  {
    if i == 0 then 0 else Offset(ss, i - 1) + |ss[i - 1]| + 1
  }

  lemma {:induction false} FlatAppend(ss: seq<string>, s: string, n: nat)
    requires n <= |ss|
    ensures Flat(ss + [s], n) == Flat(ss, n)
  {
    if n > 0 {
      FlatAppend(ss, s, n - 1);
    }
  }

  lemma {:induction false} FlatPrefix(ss: seq<string>, i: nat, n: nat)
    requires i <= n <= |ss|
    ensures |Flat(ss, i)| <= |Flat(ss, n)| && Flat(ss, n)[..|Flat(ss, i)|] == Flat(ss, i)
  {
    if i < n {
      FlatPrefix(ss, i, n - 1);
      var a, b := Flat(ss, n - 1), ss[n - 1] + [NUL];
      assert Flat(ss, n) == a + b;
      assert (a + b)[..|Flat(ss, i)|] == a[..|Flat(ss, i)|];
    }
  }

  /** The terminated string s is in memory at p. */
  ghost predicate StringAt(m: seq<char>, p: nat, s: string) {
    p + |s| < |m| && m[p..p + |s|] == s && m[p + |s|] == NUL
  }

  /** Where strings have been written, each is found at its offset. */
  lemma InFlat(ss: seq<string>, i: nat)
    requires i < |ss|
    ensures StringAt(Flat(ss, |ss|), Offset(ss, i), ss[i])
  {
    FlatPrefix(ss, i + 1, |ss|);
    var upTo := Flat(ss, i + 1);
    LastString(Flat(ss, i), ss[i]);
    assert upTo == Flat(ss, i) + ss[i] + [NUL];
    StringInPrefix(Flat(ss, |ss|), |upTo|, Offset(ss, i), ss[i]);
  }

  lemma LastString(a: string, s: string)
    ensures StringAt(a + s + [NUL], |a|, s)
  {}

  lemma StringInPrefix(m: seq<char>, n: nat, k: nat, s: string)
    requires n <= |m| && StringAt(m[..n], k, s)
    ensures StringAt(m, k, s)
  {
    assert m[..n][k..k + |s|] == m[k..k + |s|];
  }

  lemma StringWithin(m: seq<char>, p: nat, all: string, k: nat, s: string)
    requires p + |all| <= |m| && m[p..p + |all|] == all && StringAt(all, k, s)
    ensures StringAt(m, p + k, s)
  {
    var t := m[p..p + |all|];
    var a, b := m[p + k..p + k + |s|], t[k..k + |s|];
    forall i | 0 <= i < |a| ensures a[i] == b[i] {
      assert t[k + i] == m[p + (k + i)];
    }
    assert t[k + |s|] == m[p + (k + |s|)];
  }

  // ---- What goes where

  function Fold(c: char): char {
    if c == '-' then '_' else c
  }

  /** Equal, dashes and underscores being the same. */
  predicate SameName(a: string, b: string) {
    |a| == |b| && forall i :: 0 <= i < |a| ==> Fold(a[i]) == Fold(b[i])
  }

  const KERNEL_OPTIONS: seq<string> := ["on_panic"]

  predicate IsKernelOption(name: string) {
    exists i :: 0 <= i < |KERNEL_OPTIONS| && SameName(KERNEL_OPTIONS[i], name)
  }

  function Arguments(items: seq<Item>): seq<string> {
    if items == [] then []
    else (match items[0] case Arg(text) => [text] case Pair(_, _) => []) + Arguments(items[1..])
  }

  /** Every pair that is not an option of the kernel's own. */
  function Environ(items: seq<Item>): seq<string> {
    if items == [] then []
    else (match items[0]
          case Arg(_) => []
          case Pair(name, value) => if IsKernelOption(name) then [] else [name + "=" + value]) + Environ(items[1..])
  }

  lemma {:induction false} ArgumentsAdd(a: seq<Item>, b: seq<Item>)
    ensures Arguments(a + b) == Arguments(a) + Arguments(b)
  {
    if a == [] {
      assert a + b == b;
    } else {
      assert (a + b)[1..] == a[1..] + b;
      ArgumentsAdd(a[1..], b);
    }
  }

  lemma {:induction false} EnvironAdd(a: seq<Item>, b: seq<Item>)
    ensures Environ(a + b) == Environ(a) + Environ(b)
  {
    if a == [] {
      assert a + b == b;
    } else {
      assert (a + b)[1..] == a[1..] + b;
      EnvironAdd(a[1..], b);
    }
  }

  lemma {:induction false} FlatFront(s: string, ss: seq<string>, n: nat)
    requires n <= |ss|
    ensures Flat([s] + ss, n + 1) == s + [NUL] + Flat(ss, n)
  {
    if n > 0 {
      FlatFront(s, ss, n - 1);
      assert ([s] + ss)[n] == ss[n - 1];
    } else {
      assert Flat([s] + ss, 0) == "";
    }
  }

  /** Both kinds of strings together take no more than the bytes of the items. */
  lemma {:induction false} StringsFit(items: seq<Item>)
    ensures var args, envs := Arguments(items), Environ(items); |Flat(args, |args|)| + |Flat(envs, |envs|)| <= Bytes(items)
  {
    if items != [] {
      var args, envs := Arguments(items[1..]), Environ(items[1..]);
      StringsFit(items[1..]);
      match items[0] {
        case Arg(text) =>
          FlatFront(text, args, |args|);
          assert Environ(items) == envs;
        case Pair(name, value) =>
          FlatFront(name + "=" + value, envs, |envs|);
          assert Arguments(items) == args;
          if IsKernelOption(name) {
            assert Environ(items) == envs;
          }
      }
    }
  }

  /** There are no more strings than items. */
  lemma {:induction false} FewStrings(items: seq<Item>)
    ensures |Arguments(items)| + |Environ(items)| <= |items|
  {
    if items != [] {
      FewStrings(items[1..]);
    }
  }

  ghost predicate AllClean(ss: seq<string>) {
    forall i :: 0 <= i < |ss| ==> NoNul(ss[i])
  }

  /** No string of the command line, and not the program name, contains a NUL. */
  lemma CleanStrings(line: string, argv0: string)
    requires NoNul(argv0)
    ensures AllClean([argv0] + Arguments(Items(line))) && AllClean(Environ(Items(line)))
  {
    ItemsFit(line);
    StringsClean(Items(line));
  }

  lemma {:induction false} StringsClean(items: seq<Item>)
    requires Clean(items)
    ensures AllClean(Arguments(items)) && AllClean(Environ(items))
  {
    if items != [] {
      assert Clean(items[1..]) by {
        assert forall i :: 0 <= i < |items| - 1 ==> items[1..][i] == items[i + 1];
      }
      StringsClean(items[1..]);
    }
  }

  // ---- The passes over the command line

  /** The parser's context, which one call moves on to the next argument, the next pair or the end. */
  class Parser {
    const line: string
    var state: State
    var option: Token
    var value: Token
    var position: nat
    var done: bool
    var errors: Errors
    var hasArgument: bool
    var hasOption: bool

    constructor (line: string)
      ensures this.line == line && View() == INITIAL
    {
      this.line := line;
      state, option, value, position, done := Start, Token(0, 0), Token(0, 0), 0, false;
      errors := Errors(false, false, false);
      hasArgument, hasOption := false, false;
    }

    function View(): Context
      reads this
    {
      Context(state, option, value, position, done, errors)
    }

    /** What the last call found. */
    ghost function Last(): seq<Item>
      reads this
    {
      Found(if hasArgument then Argument else if hasOption then Option else Nothing, View(), line)
    }

    ghost predicate Valid()
      reads this
    {
      OnLine(View(), line)
    }

    /** Go on to the next argument or pair, or to the end. */
    method Mutate()
      requires Valid() && !done
      modifies this
      ensures Valid() && old(ItemsFrom(View(), line)) == Last() + ItemsFrom(View(), line)
      ensures Left(View(), line) < old(Left(View(), line)) && !(hasArgument && hasOption)
    {
      Advance();
      while !(hasArgument || hasOption || done)
        invariant Valid() && !(hasArgument && hasOption)
        invariant old(ItemsFrom(View(), line)) == Last() + ItemsFrom(View(), line)
        invariant Left(View(), line) < old(Left(View(), line))
        decreases Left(View(), line)
      {
        Advance();
      }
    }

    /** One character. */
    method Advance()
      requires Valid() && !done
      modifies this
      ensures Valid() && old(ItemsFrom(View(), line)) == Last() + ItemsFrom(View(), line)
      ensures Left(View(), line) < old(Left(View(), line)) && !(hasArgument && hasOption)
    {
      ghost var was := View();
      StepOnLine(was, line);
      hasArgument, hasOption := false, false;
      var c := CharAt(line, position);
      if position >= MAX_VALID_LENGTH {
        errors := errors.(tooLong := true);
        if position >= MAX_PARSE_LENGTH {
          done := true;
          return;
        }
      }
      var (y, action) := Next(View(), c);
      state, option, value, done, errors := y.state, y.option, y.value, y.done, y.errors;
      hasArgument, hasOption := action == Argument, action == Option;
      if c == NUL {
        done := true;
      }
      position := position + 1;
      assert (View(), action) == Step(was, line);
    }
  }

  method CountArguments(line: string) returns (count: nat)
    ensures count == |Arguments(Items(line))|
  {
    var context := new Parser(line);
    count := 0;
    while !context.done
      invariant context.line == line && context.Valid() && fresh(context)
      invariant count + |Arguments(ItemsFrom(context.View(), line))| == |Arguments(Items(line))|
      decreases Left(context.View(), line)
    {
      context.Mutate();
      ArgumentsAdd(context.Last(), ItemsFrom(context.View(), line));
      if context.hasArgument {
        count := count + 1;
      }
    }
  }

  /** Find a name among definitions: the first that is equal, dashes and underscores being the same. */
  method EntryByToken(names: seq<string>, token: string) returns (found: bool, at: nat)
    requires NoNul(token) && forall i :: 0 <= i < |names| ==> NoNul(names[i])
    ensures found <==> exists i :: 0 <= i < |names| && SameName(names[i], token)
    ensures found ==> at < |names| && SameName(names[at], token) && forall i :: 0 <= i < at ==> !SameName(names[i], token)
  {
    for d := 0 to |names|
      invariant forall i :: 0 <= i < d ==> !SameName(names[i], token)
    {
      var match_ := true;
      var t := 0;
      while t < |token|
        invariant t <= |token| && t <= |names[d]| && match_ && forall i :: 0 <= i < t ==> Fold(names[d][i]) == Fold(token[i])
      {
        var nameChar, tokenChar := Fold(CharAt(names[d], t)), Fold(token[t]);
        if nameChar != tokenChar {
          match_ := false;
          break;
        }
        t := t + 1;
      }
      if match_ && CharAt(names[d], t) == NUL {
        return true, d;
      }
    }
    return false, |names|;
  }

  /** Kernel options are not passed on to user space. */
  method FilterUserspaceEnviron(name: string) returns (keep: bool)
    requires NoNul(name)
    ensures keep == !IsKernelOption(name)
  {
    var found, at := EntryByToken(KERNEL_OPTIONS, name);
    return !found;
  }

  method CountEnviron(line: string) returns (count: nat)
    ensures count == |Environ(Items(line))|
  {
    var context := new Parser(line);
    count := 0;
    ghost var seen: seq<Item> := [];
    while !context.done
      invariant context.line == line && context.Valid() && fresh(context)
      invariant Items(line) == seen + ItemsFrom(context.View(), line)
      invariant count == |Environ(seen)|
      decreases Left(context.View(), line)
    {
      count, seen := CountNextVariable(context, count, seen);
    }
    assert seen + [] == seen;
  }

  method CountNextVariable(context: Parser, count: nat, ghost seen: seq<Item>) returns (count1: nat, ghost seen1: seq<Item>)
    requires context.Valid() && !context.done && Items(context.line) == seen + ItemsFrom(context.View(), context.line)
    requires count == |Environ(seen)|
    modifies context
    ensures context.Valid() && Items(context.line) == seen1 + ItemsFrom(context.View(), context.line)
    ensures Left(context.View(), context.line) < old(Left(context.View(), context.line))
    ensures count1 == |Environ(seen1)|
  {
    context.Mutate();
    ghost var last := context.Last();
    Split(seen, last, ItemsFrom(context.View(), context.line), Items(context.line));
    ItemsFit(context.line);
    assert last != [] ==> Items(context.line)[|seen|] == last[0];
    count1, seen1 := count, seen + last;
    if context.hasOption {
      var keep := FilterUserspaceEnviron(Text(context.line, context.option));
      if keep {
        count1 := count1 + 1;
      }
    }
  }

  /** Write a token; the result is the position after it. */
  method WriteToken(buffer: array<char>, at: nat, s: string) returns (end: nat)
    requires at + |s| <= buffer.Length
    modifies buffer
    ensures end == at + |s| && Extended(old(buffer[..]), buffer[..], at, s)
  {
    for i := 0 to |s|
      invariant forall k :: 0 <= k < buffer.Length ==> buffer[k] == if at <= k < at + i then s[k - at] else old(buffer[k])
    {
      buffer[at + i] := s[i];
    }
    return at + |s|;
  }

  method WriteCharacter(buffer: array<char>, at: nat, c: char) returns (end: nat)
    requires at < buffer.Length
    modifies buffer
    ensures end == at + 1 && Extended(old(buffer[..]), buffer[..], at, [c])
  {
    buffer[at] := c;
    return at + 1;
  }

  /** The text s has been written at a position, and nothing before or after it has changed. */
  ghost predicate Extended(m: seq<char>, m1: seq<char>, at: nat, s: string) {
    |m1| == |m| && at + |s| <= |m| && m1[..at] == m[..at] && m1[at..at + |s|] == s && m1[at + |s|..] == m[at + |s|..]
  }

  lemma ExtendedThen(m: seq<char>, m1: seq<char>, m2: seq<char>, at: nat, s: string, t: string)
    requires Extended(m, m1, at, s) && Extended(m1, m2, at + |s|, t)
    ensures Extended(m, m2, at, s + t)
  {
    assert m2[..at] == m2[..at + |s|][..at] && m1[..at] == m1[..at + |s|][..at];
    assert m2[at..at + |s|] == m2[..at + |s|][at..] && m1[at..at + |s|] == m1[..at + |s|][at..];
    assert m2[at..at + |s + t|] == m2[at..at + |s|] + m2[at + |s|..at + |s| + |t|];
    assert m1[at + |s + t|..] == m1[at + |s|..][|t|..] && m[at + |s + t|..] == m[at + |s|..][|t|..];
  }

  function All(ss: seq<string>): string {
    Flat(ss, |ss|)
  }

  lemma {:induction false} AllAdd(a: seq<string>, b: seq<string>)
    ensures All(a + b) == All(a) + All(b)
  {
    if b == [] {
      assert a + b == a;
    } else {
      var init, last := b[..|b| - 1], b[|b| - 1];
      AllAdd(a, init);
      assert a + b == (a + init) + [last];
      FlatAppend(a + init, last, |a + init|);
      assert b == init + [last];
      FlatAppend(init, last, |init|);
    }
  }

  lemma AllOne(s: string)
    ensures All([s]) == s + [NUL]
  {
    assert Flat([s], 0) == "";
  }

  /** Write a token and its terminator. */
  method WriteArgument(buffer: array<char>, at: nat, text: string) returns (end: nat)
    requires at + |text| + 1 <= buffer.Length
    modifies buffer
    ensures end == at + |text| + 1 && Extended(old(buffer[..]), buffer[..], at, All([text]))
  {
    AllOne(text);
    end := WriteToken(buffer, at, text);
    ghost var m := buffer[..];
    end := WriteCharacter(buffer, end, NUL);
    ExtendedThen(old(buffer[..]), m, buffer[..], at, text, [NUL]);
  }

  /** Write a name, an equal sign, a value and a terminator. */
  method WriteVariable(buffer: array<char>, at: nat, name: string, value: string) returns (end: nat)
    requires at + |name| + 1 + |value| + 1 <= buffer.Length
    modifies buffer
    ensures end == at + |name| + 1 + |value| + 1 && Extended(old(buffer[..]), buffer[..], at, All([name + "=" + value]))
  {
    end := WriteToken(buffer, at, name);
    ghost var m := buffer[..];
    end := WriteCharacter(buffer, end, '=');
    ExtendedThen(old(buffer[..]), m, buffer[..], at, name, "=");
    m := buffer[..];
    end := WriteArgument(buffer, end, value);
    ExtendedThen(old(buffer[..]), m, buffer[..], at, name + "=", All([value]));
    AllOne(value);
    AllOne(name + "=" + value);
    assert name + "=" + (value + [NUL]) == name + "=" + value + [NUL];
  }

  /** Strings still to come fit if all of them do. */
  lemma RoomLeft(a: seq<string>, b: seq<string>, c: seq<string>)
    ensures |All(a + b + c)| == |All(a)| + |All(b)| + |All(c)|
    ensures All(a + b) == All(a) + All(b)
  {
    AllAdd(a + b, c);
    AllAdd(a, b);
  }

  /** The strings `ss` have been written from `at` to `end`. */
  ghost predicate WrittenOut(m0: seq<char>, m: seq<char>, at: nat, end: nat, ss: seq<string>) {
    end == at + |All(ss)| && Extended(m0, m, at, All(ss))
  }

  lemma WrittenMore(m0: seq<char>, m1: seq<char>, m2: seq<char>, at: nat, k1: nat, k2: nat, a: seq<string>, b: seq<string>)
    requires WrittenOut(m0, m1, at, k1, a) && WrittenOut(m1, m2, k1, k2, b)
    ensures WrittenOut(m0, m2, at, k2, a + b)
  {
    AllAdd(a, b);
    ExtendedThen(m0, m1, m2, at, All(a), All(b));
  }

  /** Write every argument, in order. */
  method WriteArguments(buffer: array<char>, at: nat, line: string) returns (end: nat)
    requires at + |All(Arguments(Items(line)))| <= buffer.Length
    modifies buffer
    ensures WrittenOut(old(buffer[..]), buffer[..], at, end, Arguments(Items(line)))
  {
    var context := new Parser(line);
    end := at;
    ghost var seen: seq<Item> := [];
    while !context.done
      invariant context.line == line && context.Valid() && fresh(context)
      invariant Items(line) == seen + ItemsFrom(context.View(), line)
      invariant WrittenOut(old(buffer[..]), buffer[..], at, end, Arguments(seen))
      decreases Left(context.View(), line)
    {
      end, seen := WriteNextArgument(context, buffer, at, end, seen, old(buffer[..]));
    }
    assert seen + [] == seen;
  }

  method WriteNextArgument(context: Parser, buffer: array<char>, ghost at: nat, end: nat, ghost seen: seq<Item>, ghost m0: seq<char>)
    returns (end1: nat, ghost seen1: seq<Item>)
    requires context.Valid() && !context.done && Items(context.line) == seen + ItemsFrom(context.View(), context.line)
    requires WrittenOut(m0, buffer[..], at, end, Arguments(seen))
    requires at + |All(Arguments(Items(context.line)))| <= buffer.Length
    modifies context, buffer
    ensures context.Valid() && Items(context.line) == seen1 + ItemsFrom(context.View(), context.line)
    ensures Left(context.View(), context.line) < old(Left(context.View(), context.line))
    ensures WrittenOut(m0, buffer[..], at, end1, Arguments(seen1))
  {
    context.Mutate();
    ghost var last, rest := context.Last(), ItemsFrom(context.View(), context.line);
    Split(seen, last, rest, Items(context.line));
    RoomLeft(Arguments(seen), Arguments(last), Arguments(rest));
    ghost var m := buffer[..];
    end1 := WriteIfArgument(context, buffer, end);
    WrittenMore(m0, m, buffer[..], at, end, end1, Arguments(seen), Arguments(last));
    seen1 := seen + last;
  }

  method WriteIfArgument(context: Parser, buffer: array<char>, at: nat) returns (end: nat)
    requires at + |All(Arguments(context.Last()))| <= buffer.Length
    modifies buffer
    ensures WrittenOut(old(buffer[..]), buffer[..], at, end, Arguments(context.Last()))
  {
    end := at;
    if context.hasArgument {
      var text := Text(context.line, context.option);
      AllOne(text);
      assert Arguments(context.Last()) == [text];
      end := WriteArgument(buffer, at, text);
    } else {
      assert Arguments(context.Last()) == [];
    }
  }

  lemma Split(seen: seq<Item>, last: seq<Item>, rest: seq<Item>, items: seq<Item>)
    requires items == seen + (last + rest)
    ensures items == seen + last + rest
    ensures Arguments(items) == Arguments(seen) + Arguments(last) + Arguments(rest)
    ensures Environ(items) == Environ(seen) + Environ(last) + Environ(rest)
    ensures Arguments(seen + last) == Arguments(seen) + Arguments(last) && Environ(seen + last) == Environ(seen) + Environ(last)
  {
    assert items == seen + last + rest;
    ArgumentsAdd(seen + last, rest);
    ArgumentsAdd(seen, last);
    EnvironAdd(seen + last, rest);
    EnvironAdd(seen, last);
  }

  /** Write every pair that is meant for user space, in order. */
  method WriteEnviron(buffer: array<char>, at: nat, line: string) returns (end: nat)
    requires at + |All(Environ(Items(line)))| <= buffer.Length
    modifies buffer
    ensures WrittenOut(old(buffer[..]), buffer[..], at, end, Environ(Items(line)))
  {
    var context := new Parser(line);
    end := at;
    ghost var seen: seq<Item> := [];
    while !context.done
      invariant context.line == line && context.Valid() && fresh(context)
      invariant Items(line) == seen + ItemsFrom(context.View(), line)
      invariant WrittenOut(old(buffer[..]), buffer[..], at, end, Environ(seen))
      decreases Left(context.View(), line)
    {
      end, seen := WriteNextVariable(context, buffer, at, end, seen, old(buffer[..]));
    }
    assert seen + [] == seen;
  }

  method WriteNextVariable(context: Parser, buffer: array<char>, ghost at: nat, end: nat, ghost seen: seq<Item>, ghost m0: seq<char>)
    returns (end1: nat, ghost seen1: seq<Item>)
    requires context.Valid() && !context.done && Items(context.line) == seen + ItemsFrom(context.View(), context.line)
    requires WrittenOut(m0, buffer[..], at, end, Environ(seen))
    requires at + |All(Environ(Items(context.line)))| <= buffer.Length
    modifies context, buffer
    ensures context.Valid() && Items(context.line) == seen1 + ItemsFrom(context.View(), context.line)
    ensures Left(context.View(), context.line) < old(Left(context.View(), context.line))
    ensures WrittenOut(m0, buffer[..], at, end1, Environ(seen1))
  {
    context.Mutate();
    ghost var last, rest := context.Last(), ItemsFrom(context.View(), context.line);
    Split(seen, last, rest, Items(context.line));
    RoomLeft(Environ(seen), Environ(last), Environ(rest));
    ghost var m := buffer[..];
    ItemsFit(context.line);
    assert last != [] ==> Items(context.line)[|seen|] == last[0];
    end1 := WriteIfVariable(context, buffer, end);
    WrittenMore(m0, m, buffer[..], at, end, end1, Environ(seen), Environ(last));
    seen1 := seen + last;
  }

  method WriteIfVariable(context: Parser, buffer: array<char>, at: nat) returns (end: nat)
    requires !(context.hasArgument && context.hasOption)
    requires context.hasOption ==> NoNul(Text(context.line, context.option))
    requires at + |All(Environ(context.Last()))| <= buffer.Length
    modifies buffer
    ensures WrittenOut(old(buffer[..]), buffer[..], at, end, Environ(context.Last()))
  {
    end := at;
    if context.hasOption {
      var name, value := Text(context.line, context.option), Text(context.line, context.value);
      var keep := FilterUserspaceEnviron(name);
      if keep {
        AllOne(name + "=" + value);
        assert Environ(context.Last()) == [name + "=" + value];
        end := WriteVariable(buffer, at, name, value);
      } else {
        assert Environ(context.Last()) == [];
      }
    } else {
      assert Environ(context.Last()) == [];
    }
  }

  // ---- The pointer arrays

  /** Find the terminator of the string at p. */
  method SkipString(chars: array<char>, p: nat, ghost s: string) returns (next: nat)
    requires StringAt(chars[..], p, s) && NoNul(s)
    ensures next == p + |s| + 1
  {
    var str := p;
    NotYet(chars[..], p, s, str);
    while chars[str] != NUL
      invariant p <= str <= p + |s| && (chars[str] == NUL <==> str == p + |s|)
      decreases p + |s| - str
    {
      str := str + 1;
      NotYet(chars[..], p, s, str);
    }
    return str + 1;
  }

  /** The terminator of a string is its only NUL. */
  lemma NotYet(m: seq<char>, p: nat, s: string, k: nat)
    requires StringAt(m, p, s) && NoNul(s) && p <= k <= p + |s|
    ensures k < |m| && (m[k] == NUL <==> k == p + |s|)
  {
    if k < p + |s| {
      assert m[p..p + |s|][k - p] == m[k];
    }
  }

  /** Point the entries of an array to consecutive strings; `base` is the address of the first character. */
  method InitializeStringArray(words: array<nat>, first: nat, n: nat, chars: array<char>, start: nat, base: nat, ghost ss: seq<string>)
    requires first + n <= words.Length && |ss| == n && AllClean(ss)
    requires start + |All(ss)| <= chars.Length && chars[start..start + |All(ss)|] == All(ss)
    modifies words
    ensures forall k :: 0 <= k < words.Length ==>
              words[k] == if first <= k < first + n then base + start + Offset(ss, k - first) else old(words[k])
  {
    var str := start;
    for i := 0 to n
      invariant str == start + Offset(ss, i)
      invariant forall k :: 0 <= k < words.Length ==>
                  words[k] == if first <= k < first + i then base + start + Offset(ss, k - first) else old(words[k])
    {
      words[first + i] := base + str;
      assert chars[..][start..start + |All(ss)|] == All(ss);
      InFlat(ss, i);
      StringWithin(chars[..], start, All(ss), Offset(ss, i), ss[i]);
      str := SkipString(chars, str, ss[i]);
    }
  }

  /** A pointer array: each entry points to its string, and a null entry ends it. */
  ghost predicate PointsTo(words: seq<nat>, first: nat, chars: seq<char>, base: nat, ss: seq<string>) {
    && first + |ss| < |words| && words[first + |ss|] == 0
    && forall i :: 0 <= i < |ss| ==> words[first + i] >= base && StringAt(chars, words[first + i] - base, ss[i])
  }

  const AUX_WORDS := 20

  /** The words of the stack before the strings: the count, both arrays with their ends, the auxiliary vectors. */
  function WordsNeeded(line: string): nat {
    1 + (|Arguments(Items(line))| + 1) + 1 + |Environ(Items(line))| + 1 + AUX_WORDS
  }

  const WORD_SIZE := 4
  const RESERVED_STACK_SIZE := 32 * 1024

  /** The longest program name that fits with every valid command line. */
  const MAX_PROGRAM_NAME := 20383

  /** The bytes of the stack that the pointers, the auxiliary vectors and the strings take. */
  ghost function StackNeeded(line: string, argv0: string): nat {
    WORD_SIZE * WordsNeeded(line) + |All([argv0] + Arguments(Items(line)))| + |All(Environ(Items(line)))|
  }

  /** They fit in the reserved part, whatever the valid command line is, if and only if the program name is not too long. */
  lemma ReservedRoom(argv0: string)
    ensures (forall line: string :: |line| < MAX_VALID_LENGTH ==> StackNeeded(line, argv0) <= RESERVED_STACK_SIZE) <==>
              |argv0| <= MAX_PROGRAM_NAME
  {
    if |argv0| <= MAX_PROGRAM_NAME {
      forall line: string | |line| < MAX_VALID_LENGTH ensures StackNeeded(line, argv0) <= RESERVED_STACK_SIZE {
        RoomFor(line, argv0);
      }
    } else {
      FullLine(argv0);
    }
  }

  lemma RoomFor(line: string, argv0: string)
    requires |line| < MAX_VALID_LENGTH
    ensures StackNeeded(line, argv0) <= RESERVED_STACK_SIZE - MAX_PROGRAM_NAME + |argv0|
  {
    ItemsFit(line);
    ItemsFew(line);
    FewStrings(Items(line));
    StringsFit(Items(line));
    AllAdd([argv0], Arguments(Items(line)));
    AllOne(argv0);
  }

  /** The word `a`, n + 1 times, with single spaces. */
  function Letters(n: nat): seq<Spaced<Word>> {
    if n == 0 then [Spaced(RawArgument("a"), "")] else [Spaced(RawArgument("a"), " ")] + Letters(n - 1)
  }

  function Texts(n: nat): seq<string> {
    if n == 0 then ["a"] else ["a"] + Texts(n - 1)
  }

  lemma {:induction false} LettersWritable(n: nat)
    ensures |Letters(n)| == n + 1 && AllWritable(Letters(n), true)
  {
    assert Writable(RawArgument("a"));
    if n > 0 {
      LettersWritable(n - 1);
      var ws := Letters(n);
      forall i | 0 <= i < |ws| ensures Writable(ws[i].word) && Separates(ws[i].gap, i == |ws| - 1) {
        assert i > 0 ==> ws[i] == Letters(n - 1)[i - 1];
      }
    }
  }

  lemma {:induction false} LettersLength(n: nat)
    ensures |AllWritten(Letters(n))| == 2 * n + 1
  {
    assert Letters(n)[1..] == if n == 0 then [] else Letters(n - 1);
    if n > 0 {
      LettersLength(n - 1);
    }
  }

  lemma {:induction false} LettersMean(n: nat)
    ensures Arguments(Meanings(Letters(n))) == Texts(n) && Environ(Meanings(Letters(n))) == []
  {
    var rest := Meanings(Letters(n)[1..]);
    FirstArgument(rest);
    assert Letters(n)[1..] == if n == 0 then [] else Letters(n - 1);
    if n > 0 {
      LettersMean(n - 1);
    }
  }

  lemma {:induction false} TextsLength(n: nat)
    ensures |Texts(n)| == n + 1 && |All(Texts(n))| == 2 * n + 2
  {
    AllOne("a");
    if n > 0 {
      TextsLength(n - 1);
      AllAdd(["a"], Texts(n - 1));
    }
  }

  lemma FirstArgument(items: seq<Item>)
    ensures Arguments([Arg("a")] + items) == ["a"] + Arguments(items) && Environ([Arg("a")] + items) == Environ(items)
  {
    assert ([Arg("a")] + items)[1..] == items;
  }

  /** The longest valid command line with the shortest words leaves just enough room for the longest name. */
  lemma FullLine(argv0: string)
    ensures exists line: string :: |line| < MAX_VALID_LENGTH && StackNeeded(line, argv0) == RESERVED_STACK_SIZE - MAX_PROGRAM_NAME + |argv0|
  {
    var n := 2047;
    LettersWritable(n);
    LettersLength(n);
    LettersMean(n);
    TextsLength(n);
    var line := CommandLine("", Letters(n), NoDashes);
    assert line == AllWritten(Letters(n));
    ParseWritten("", Letters(n), NoDashes);
    assert Items(line) == Meanings(Letters(n));
    AllAdd([argv0], Texts(n));
    AllOne(argv0);
    assert StackNeeded(line, argv0) == RESERVED_STACK_SIZE - MAX_PROGRAM_NAME + |argv0|;
  }

  /** The program name and the arguments, then the environment, written one after the other. */
  method WriteStrings(chars: array<char>, line: string, argv0: string) returns (envs: nat)
    requires |argv0| + 1 + |line| + 1 <= chars.Length
    modifies chars
    ensures envs == |All([argv0] + Arguments(Items(line)))| && envs + |All(Environ(Items(line)))| <= chars.Length
    ensures chars[..envs] == All([argv0] + Arguments(Items(line)))
    ensures chars[envs..envs + |All(Environ(Items(line)))|] == All(Environ(Items(line)))
    ensures chars[envs + |All(Environ(Items(line)))|..] == old(chars[..])[envs + |All(Environ(Items(line)))|..]
  {
    ghost var args, vars := Arguments(Items(line)), Environ(Items(line));
    ItemsFit(line);
    StringsFit(Items(line));
    AllOne(argv0);
    ghost var m0 := chars[..];
    var arg1 := WriteArgument(chars, 0, argv0);
    ghost var m1 := chars[..];
    envs := WriteArguments(chars, arg1, line);
    ghost var m2 := chars[..];
    WrittenMore(m0, m1, m2, 0, arg1, envs, [argv0], args);
    var end := WriteEnviron(chars, envs, line);
    assert chars[..][..envs] == m2[..envs];
    WrittenMore(m0, m2, chars[..], 0, envs, end, [argv0] + args, vars);
  }

  /** The count, the ends of the arrays and the auxiliary vectors. */
  method LayOut(words: array<nat>, argc: nat, nenv: nat, aux: seq<nat>)
    requires |aux| == AUX_WORDS && words.Length >= 1 + argc + 1 + nenv + 1 + AUX_WORDS
    modifies words
    ensures words[0] == argc && words[1 + argc] == 0 && words[argc + 2 + nenv] == 0
    ensures words[argc + 3 + nenv..argc + 3 + nenv + AUX_WORDS] == aux
  {
    words[0] := argc;
    words[1 + argc] := 0;
    words[argc + 2 + nenv] := 0;
    var auxv := argc + 3 + nenv;
    for i := 0 to AUX_WORDS
      invariant words[0] == argc && words[1 + argc] == 0 && words[argc + 2 + nenv] == 0
      invariant words[auxv..auxv + i] == aux[..i]
    {
      words[auxv + i] := aux[i];
    }
  }

  /**
   * Set up the initial stack: argc, then argv with the program name and every
   * argument, then the environment, then the auxiliary vectors. The space that
   * the command line takes, and the program name, is enough for all strings.
   */
  method InitializeStack(words: array<nat>, chars: array<char>, base: nat, line: string, argv0: string, aux: seq<nat>)
    requires words.Length >= WordsNeeded(line) && chars.Length >= |argv0| + 1 + |line| + 1 && |aux| == AUX_WORDS && NoNul(argv0)
    modifies words, chars
    ensures StackIs(words[..], chars[..], base, [argv0] + Arguments(Items(line)), Environ(Items(line)), aux)
  {
    var argc := CountArguments(line);
    var nenv := CountEnviron(line);
    BuildStack(words, chars, base, line, argv0, aux, argc + 1, nenv, [argv0] + Arguments(Items(line)), Environ(Items(line)));
  }

  ghost predicate StackIs(words: seq<nat>, chars: seq<char>, base: nat, args: seq<string>, vars: seq<string>, aux: seq<nat>) {
    var auxv := |args| + 3 + |vars|;
    && auxv + |aux| <= |words| && words[0] == |args| && words[auxv..auxv + |aux|] == aux
    && PointsTo(words, 1, chars, base, args) && PointsTo(words, |args| + 2, chars, base, vars)
  }

  method BuildStack(words: array<nat>, chars: array<char>, base: nat, line: string, argv0: string, aux: seq<nat>,
                    argc: nat, nenv: nat, ghost args: seq<string>, ghost vars: seq<string>)
    requires args == [argv0] + Arguments(Items(line)) && vars == Environ(Items(line)) && argc == |args| && nenv == |vars|
    requires words.Length >= argc + 3 + nenv + AUX_WORDS && chars.Length >= |argv0| + 1 + |line| + 1
    requires |aux| == AUX_WORDS && NoNul(argv0)
    modifies words, chars
    ensures StackIs(words[..], chars[..], base, args, vars, aux)
  {
    CleanStrings(line, argv0);
    LayOut(words, argc, nenv, aux);
    var envs := WriteStrings(chars, line, argv0);
    FillPointers(words, chars, base, argc, nenv, envs, args, vars, aux);
  }

  /** Fill in both arrays, once the strings are there; the words around them stay. */
  method FillPointers(words: array<nat>, chars: array<char>, base: nat, argc: nat, nenv: nat, envs: nat,
                      ghost args: seq<string>, ghost vars: seq<string>, ghost aux: seq<nat>)
    requires argc == |args| && nenv == |vars| && words.Length >= argc + 3 + nenv + |aux|
    requires AllClean(args) && AllClean(vars)
    requires envs == |All(args)| && envs + |All(vars)| <= chars.Length
    requires chars[..envs] == All(args) && chars[envs..envs + |All(vars)|] == All(vars)
    requires words[0] == argc && words[1 + argc] == 0 && words[argc + 2 + nenv] == 0
    requires words[argc + 3 + nenv..argc + 3 + nenv + |aux|] == aux
    modifies words
    ensures StackIs(words[..], chars[..], base, args, vars, aux)
  {
    assert chars[0..envs] == chars[..envs];
    FillArray(words, 1, argc, chars, 0, base, args);
    ghost var w := words[..];
    FillArray(words, argc + 2, nenv, chars, envs, base, vars);
    StillPoints(w, words[..], 1, chars[..], base, args);
    assert words[..][argc + 3 + nenv..argc + 3 + nenv + |aux|] == old(words[argc + 3 + nenv..argc + 3 + nenv + |aux|]);
  }

  /** Fill in one array whose end is marked. */
  method FillArray(words: array<nat>, first: nat, n: nat, chars: array<char>, start: nat, base: nat, ghost ss: seq<string>)
    requires first + n < words.Length && |ss| == n && AllClean(ss) && words[first + n] == 0
    requires start + |All(ss)| <= chars.Length && chars[start..start + |All(ss)|] == All(ss)
    modifies words
    ensures PointsTo(words[..], first, chars[..], base, ss)
    ensures forall k :: 0 <= k < words.Length && !(first <= k < first + n) ==> words[k] == old(words[k])
  {
    InitializeStringArray(words, first, n, chars, start, base, ss);
    ghost var all := All(ss);
    assert chars[..][start..start + |all|] == all;
    Pointed(words[..], first, chars[..], start, base, ss);
  }

  lemma StillPoints(w: seq<nat>, w1: seq<nat>, first: nat, chars: seq<char>, base: nat, ss: seq<string>)
    requires PointsTo(w, first, chars, base, ss) && |w1| == |w| && forall k :: first <= k <= first + |ss| ==> w1[k] == w[k]
    ensures PointsTo(w1, first, chars, base, ss)
  {}

  lemma Pointed(words: seq<nat>, first: nat, chars: seq<char>, start: nat, base: nat, ss: seq<string>)
    requires first + |ss| < |words| && words[first + |ss|] == 0
    requires forall k :: first <= k < first + |ss| ==> words[k] == base + start + Offset(ss, k - first)
    requires start + |All(ss)| <= |chars| && chars[start..start + |All(ss)|] == All(ss)
    ensures PointsTo(words, first, chars, base, ss)
  {
    forall i | 0 <= i < |ss| ensures words[first + i] >= base && StringAt(chars, words[first + i] - base, ss[i]) {
      assert words[first + i] == base + start + Offset(ss, first + i - first);
      InFlat(ss, i);
      StringWithin(chars, start, All(ss), Offset(ss, i), ss[i]);
    }
  }
}
