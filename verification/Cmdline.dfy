/**
 * The kernel command line: a character automaton that finds arguments and
 * name=value pairs, and the passes that count them and write them out.
 */
module Cmdline {

  const MAX_VALID_LENGTH := 4096
  const MAX_PARSE_LENGTH := 65536

  const NUL: char := '\0'

  datatype State =
    | Start
    | Name
    | Equal
    | Value
    | ValueStartQuote
    | QuotedValue
    | EndQuote
    | Dash1
    | Dash2
    | ArgumentStartQuote
    | QuotedArgument
    | UserStart               // after the double dash
    | UserArgument
    | UserEqual
    | UserValue
    | UserQuotedValue
    | UserValueEndQuote
    | UserStartQuote
    | UserQuotedArgument
    | UserEndQuote

  datatype Token = Token(start: nat, length: nat)

  datatype Errors = Errors(tooLong: bool, junkAfterQuote: bool, unclosedQuotes: bool)

  datatype Context = Context(state: State, option: Token, value: Token, position: nat, done: bool, errors: Errors)

  datatype Action = Nothing | Argument | Option

  const INITIAL := Context(Start, Token(0, 0), Token(0, 0), 0, false, Errors(false, false, false))

  /** The end of the string reads as NUL. */
  function CharAt(line: string, i: nat): char {
    if i < |line| then line[i] else NUL
  }

  predicate IsSeparator(c: char) {
    c == ' ' || c == '\t' || c == NUL
  }

  function To(x: Context, state: State): Context {
    x.(state := state)
  }

  function OptionFrom(x: Context, state: State): Context {
    x.(option := x.option.(start := x.position), state := state)
  }

  function ValueFrom(x: Context, state: State): Context {
    x.(value := x.value.(start := x.position), state := state)
  }

  function OptionEnds(x: Context, state: State): Context {
    x.(option := x.option.(length := if x.position >= x.option.start then x.position - x.option.start else 0), state := state)
  }

  function ValueEnds(x: Context, state: State): Context {
    x.(value := x.value.(length := if x.position >= x.value.start then x.position - x.value.start else 0), state := state)
  }

  function Unclosed(x: Context): Context {
    x.(errors := x.errors.(unclosedQuotes := true))
  }

  function Junk(x: Context): Context {
    x.(errors := x.errors.(junkAfterQuote := true))
  }

  /** What one character does. */
  function Next(x: Context, c: char): (Context, Action) {
    match x.state
    case Start =>
      if c == '"' then (To(x, ArgumentStartQuote), Nothing)
      else if c == '-' then (OptionFrom(x, Dash1), Nothing)
      else if !IsSeparator(c) then (OptionFrom(x, Name), Nothing)
      else (x, Nothing)
    case Name =>
      if c == '=' then (OptionEnds(x, Equal), Nothing)
      else if IsSeparator(c) then (OptionEnds(x, Start), Argument)
      else (x, Nothing)
    case Equal =>
      if IsSeparator(c) then (x.(value := Token(x.position, 0), state := Start), Option)
      else if c == '"' then (To(x, ValueStartQuote), Nothing)
      else (ValueFrom(x, Value), Nothing)
    case Value =>
      if IsSeparator(c) then (ValueEnds(x, Start), Option) else (x, Nothing)
    case ValueStartQuote =>
      if c == '"' then (x.(value := Token(x.position, 0), state := EndQuote), Option)
      else if c == NUL then (Unclosed(x), Nothing)
      else (ValueFrom(x, QuotedValue), Nothing)
    case QuotedValue =>
      if c == '"' then (ValueEnds(x, EndQuote), Option)
      else if c == NUL then (Unclosed(x), Nothing)
      else (x, Nothing)
    case EndQuote =>
      if IsSeparator(c) then (To(x, Start), Nothing)
      else if c == '"' then (To(Junk(x), ArgumentStartQuote), Nothing)
      else if c == '-' then (OptionFrom(Junk(x), Dash1), Nothing)
      else (OptionFrom(Junk(x), Name), Nothing)
    case Dash1 =>
      (To(x, if c == '-' then Dash2 else Name), Nothing)
    case Dash2 =>
      (To(x, if IsSeparator(c) then UserStart else Start), Nothing)
    case ArgumentStartQuote =>
      if c == '"' then (x.(option := Token(x.position, 0), state := EndQuote), Argument)
      else if c == NUL then (Unclosed(x), Nothing)
      else (OptionFrom(x, QuotedArgument), Nothing)
    case QuotedArgument =>
      if c == '"' then (OptionEnds(x, EndQuote), Argument)
      else if c == NUL then (Unclosed(x), Nothing)
      else (x, Nothing)
    case UserStart =>
      if c == '"' then (To(x, UserStartQuote), Nothing)
      else if !IsSeparator(c) then (OptionFrom(x, UserArgument), Nothing)
      else (x, Nothing)
    case UserArgument =>
      if c == '=' then (To(x, UserEqual), Nothing)
      else if IsSeparator(c) then (OptionEnds(x, UserStart), Argument)
      else (x, Nothing)
    case UserEqual =>
      if IsSeparator(c) then (OptionEnds(x, UserStart), Argument)
      else if c == '"' then (To(x, UserQuotedValue), Nothing)
      else (To(x, UserValue), Nothing)
    case UserValue =>
      if IsSeparator(c) then (OptionEnds(x, UserStart), Argument) else (x, Nothing)
    case UserQuotedValue =>
      if c == '"' then (To(x, UserValueEndQuote), Nothing)
      else if c == NUL then (Unclosed(x), Nothing)
      else (x, Nothing)
    case UserValueEndQuote =>
      if IsSeparator(c) then (OptionEnds(x, UserStart), Argument)
      else (Junk(OptionEnds(x, UserValueEndQuote)).(done := true), Argument)
    case UserStartQuote =>
      if c == '"' then (x.(option := Token(x.position, 0), state := UserEndQuote), Argument)
      else if c == NUL then (Unclosed(x), Nothing)
      else (OptionFrom(x, UserQuotedArgument), Nothing)
    case UserQuotedArgument =>
      if c == '"' then (OptionEnds(x, UserEndQuote), Argument)
      else if c == NUL then (Unclosed(x), Nothing)
      else (x, Nothing)
    case UserEndQuote =>
      if IsSeparator(c) then (To(x, UserStart), Nothing)
      else (Junk(x).(done := true), Nothing)
  }

  /** One turn of the automaton on a command line. */
  function Step(x: Context, line: string): (Context, Action)
    requires !x.done
  {
    var c := CharAt(line, x.position);
    var x0 := if x.position >= MAX_VALID_LENGTH then x.(errors := x.errors.(tooLong := true)) else x;
    if x.position >= MAX_PARSE_LENGTH then
      (x0.(done := true), Nothing)
    else
      var (y, a) := Next(x0, c);
      (y.(done := y.done || c == NUL, position := x.position + 1), a)
  }

  // ---- What is found

  datatype Item = Arg(text: string) | Pair(name: string, value: string)

  function Text(line: string, t: Token): string {
    if t.start + t.length <= |line| then line[t.start..t.start + t.length] else ""
  }

  function Found(a: Action, x: Context, line: string): seq<Item> {
    match a
    case Nothing => []
    case Argument => [Arg(Text(line, x.option))]
    case Option => [Pair(Text(line, x.option), Text(line, x.value))]
  }

  /** The automaton never runs past the end of the string. */
  predicate OnLine(x: Context, line: string) {
    x.position <= |line| + 1 && (!x.done ==> x.position <= |line|)
  }

  function Left(x: Context, line: string): nat
    requires OnLine(x, line)
  {
    if x.done then 0 else |line| + 1 - x.position
  }

  lemma StepOnLine(x: Context, line: string)
    requires !x.done && OnLine(x, line)
    ensures OnLine(Step(x, line).0, line) && Left(Step(x, line).0, line) < Left(x, line)
  {}

  /** Everything the automaton finds from here to the end. */
  function ItemsFrom(x: Context, line: string): seq<Item>
    requires OnLine(x, line)
    decreases Left(x, line)
  {
    if x.done then []
    else
      StepOnLine(x, line);
      var (y, a) := Step(x, line);
      Found(a, y, line) + ItemsFrom(y, line)
  }

  function Items(line: string): seq<Item> {
    ItemsFrom(INITIAL, line)
  }

  // ---- What every turn keeps

  /** The automaton is inside something whose start it remembers. */
  predicate InOption(s: State) {
    match s
    case Start | EndQuote | ArgumentStartQuote | UserStart | UserStartQuote | UserEndQuote => false
    case _ => true
  }

  predicate AfterEqual(s: State) {
    s == Equal || s == ValueStartQuote || s == Value || s == QuotedValue
  }

  ghost predicate Shaped(x: Context) {
    && (InOption(x.state) ==> x.option.start < x.position)
    && (AfterEqual(x.state) ==> x.option.start + x.option.length < x.position)
    && (x.state == Value || x.state == QuotedValue ==> x.option.start + x.option.length < x.value.start < x.position)
  }

  predicate NoNul(s: string) {
    forall i :: 0 <= i < |s| ==> s[i] != NUL
  }

  /** The bytes an item takes when it is written out. */
  function Bytes(items: seq<Item>): nat {
    if items == [] then 0
    else
      (match items[0] case Arg(text) => |text| + 1 case Pair(name, value) => |name| + 1 + |value| + 1) + Bytes(items[1..])
  }

  predicate Clean(items: seq<Item>) {
    forall i :: 0 <= i < |items| ==> match items[i] case Arg(text) => NoNul(text) case Pair(name, value) => NoNul(name) && NoNul(value)
  }

  /** After `written` bytes of output: they are no more than the characters consumed before the current option. */
  ghost predicate Kept(x: Context, line: string, written: nat) {
    && OnLine(x, line)
    && (!x.done ==> Shaped(x) && NoNul(line[..x.position]))
    && written <= if x.done then x.position else Budget(x)
  }

  /** The characters before the current option, if there is one. */
  function Budget(x: Context): nat {
    if InOption(x.state) then x.option.start else x.position
  }

  /** The bytes an action asks for. */
  function Cost(a: Action, x: Context): nat {
    match a
    case Nothing => 0
    case Argument => x.option.length + 1
    case Option => x.option.length + 1 + x.value.length + 1
  }

  /** What a turn on the character at x.position leads to keeps its shape and stays within budget. */
  ghost predicate Affordable(x: Context, y: Context, a: Action) {
    var z := y.(position := x.position + 1);
    && Shaped(z) && Budget(x) + Cost(a, y) <= (if y.done then z.position else Budget(z)) && Budget(z) <= z.position
    && (a != Nothing ==> y.option.start + y.option.length <= x.position)
    && (a == Option ==> y.value.start + y.value.length <= x.position)
    && y.position == x.position
  }

  predicate ForUser(s: State) {
    match s
    case UserStart | UserArgument | UserEqual | UserValue | UserQuotedValue => true
    case UserValueEndQuote | UserStartQuote | UserQuotedArgument | UserEndQuote => true
    case _ => false
  }

  lemma NextAffordable(x: Context, c: char)
    requires Shaped(x)
    ensures Affordable(x, Next(x, c).0, Next(x, c).1)
  {
    if ForUser(x.state) {
      NextAffordableForUser(x, c);
    } else if AfterEqual(x.state) {
      NextAffordableAfterEqual(x, c);
    } else {
      NextAffordableForKernel(x, c);
    }
  }

  lemma NextAffordableAfterEqual(x: Context, c: char)
    requires Shaped(x) && AfterEqual(x.state)
    ensures Affordable(x, Next(x, c).0, Next(x, c).1)
  {}

  lemma NextAffordableForUser(x: Context, c: char)
    requires Shaped(x) && ForUser(x.state)
    ensures Affordable(x, Next(x, c).0, Next(x, c).1)
  {
    if x.state == UserStart || x.state == UserArgument || x.state == UserEqual || x.state == UserValue {
      NextAffordableUnquoted(x, c);
    } else {
      NextAffordableQuoted(x, c);
    }
  }

  lemma NextAffordableQuoted(x: Context, c: char)
    requires Shaped(x) && ForUser(x.state) && x.state != UserStart && x.state != UserArgument && x.state != UserEqual && x.state != UserValue
    ensures Affordable(x, Next(x, c).0, Next(x, c).1)
  {}

  lemma NextAffordableUnquoted(x: Context, c: char)
    requires Shaped(x) && (x.state == UserStart || x.state == UserArgument || x.state == UserEqual || x.state == UserValue)
    ensures Affordable(x, Next(x, c).0, Next(x, c).1)
  {}

  lemma NextAffordableForKernel(x: Context, c: char)
    requires Shaped(x) && !ForUser(x.state) && !AfterEqual(x.state)
    ensures Affordable(x, Next(x, c).0, Next(x, c).1)
  {}

  lemma StepKeeps(x: Context, line: string, written: nat)
    requires !x.done && Kept(x, line, written)
    ensures var (y, a) := Step(x, line); Kept(y, line, written + Bytes(Found(a, y, line))) && Clean(Found(a, y, line))
  {
    if x.position < MAX_PARSE_LENGTH {
      var x0 := if x.position >= MAX_VALID_LENGTH then x.(errors := x.errors.(tooLong := true)) else x;
      var c := CharAt(line, x.position);
      NextAffordable(x0, c);
      TurnKeeps(x0, line, written, Next(x0, c).0, Next(x0, c).1, c);
    }
  }

  lemma TurnKeeps(x: Context, line: string, written: nat, y: Context, a: Action, c: char)
    requires !x.done && Kept(x, line, written) && Affordable(x, y, a) && c == CharAt(line, x.position)
    ensures var z := y.(done := y.done || c == NUL, position := x.position + 1);
            Kept(z, line, written + Bytes(Found(a, z, line))) && Clean(Found(a, z, line))
  {
    if x.position < |line| {
      assert line[..x.position + 1] == line[..x.position] + [c];
    }
    FoundCosts(a, y.(done := y.done || c == NUL, position := x.position + 1), line, x.position);
  }

  lemma FoundCosts(a: Action, y: Context, line: string, n: nat)
    requires n <= |line| && NoNul(line[..n])
    requires a != Nothing ==> y.option.start + y.option.length <= n
    requires a == Option ==> y.value.start + y.value.length <= n
    ensures Bytes(Found(a, y, line)) == Cost(a, y) && Clean(Found(a, y, line))
  {
    if a == Argument {
      PiecesClean(line, n, y.option);
      assert Bytes([Arg(Text(line, y.option))]) == y.option.length + 1;
    } else if a == Option {
      PiecesClean(line, n, y.option);
      PiecesClean(line, n, y.value);
      assert Bytes([Pair(Text(line, y.option), Text(line, y.value))]) == y.option.length + 1 + y.value.length + 1;
    }
  }

  lemma PiecesClean(line: string, n: nat, t: Token)
    requires n <= |line| && NoNul(line[..n]) && t.start + t.length <= n
    ensures NoNul(Text(line, t)) && |Text(line, t)| == t.length
  {
    forall i | 0 <= i < t.length ensures Text(line, t)[i] != NUL {
      assert Text(line, t)[i] == line[..n][t.start + i];
    }
  }

  lemma {:induction false} BytesAdd(a: seq<Item>, b: seq<Item>)
    ensures Bytes(a + b) == Bytes(a) + Bytes(b)
  {
    if a == [] {
      assert a + b == b;
    } else {
      assert (a + b)[1..] == a[1..] + b;
      BytesAdd(a[1..], b);
    }
  }

  /** What is found takes no more room than the characters left. */
  lemma {:induction false} ItemsKept(x: Context, line: string, written: nat)
    requires Kept(x, line, written)
    ensures written + Bytes(ItemsFrom(x, line)) <= |line| + 1 && Clean(ItemsFrom(x, line))
    decreases Left(x, line)
  {
    if !x.done {
      var (y, a) := Step(x, line);
      StepKeeps(x, line, written);
      StepOnLine(x, line);
      ItemsKept(y, line, written + Bytes(Found(a, y, line)));
      BytesAdd(Found(a, y, line), ItemsFrom(y, line));
    }
  }

  /** No item contains a NUL, and together they fit in the space the command line itself takes. */
  lemma ItemsFit(line: string)
    ensures Bytes(Items(line)) <= |line| + 1 && Clean(Items(line))
  {
    ItemsKept(INITIAL, line, 0);
  }

  // ---- How many items there can be

  /** The characters before the current option or the quote that opens it, if there is one. */
  function Before(x: Context): nat {
    if InOption(x.state) then x.option.start
    else if AtOpenQuote(x.state) && x.position > 0 then x.position - 1
    else x.position
  }

  function Number(a: Action): nat {
    if a == Nothing then 0 else 1
  }

  /** Every item takes two characters at least, with the separator or the quotes. */
  ghost predicate Spends(x: Context, y: Context, a: Action) {
    var z := y.(position := x.position + 1);
    Before(x) + 2 * Number(a) <= if y.done then z.position else Before(z)
  }

  lemma NextSpends(x: Context, c: char)
    requires Shaped(x) && (AtOpenQuote(x.state) ==> x.position > 0)
    ensures Spends(x, Next(x, c).0, Next(x, c).1)
  {
    if ForUser(x.state) {
      NextSpendsForUser(x, c);
    } else {
      NextSpendsForKernel(x, c);
    }
  }

  lemma NextSpendsForUser(x: Context, c: char)
    requires Shaped(x) && ForUser(x.state) && (AtOpenQuote(x.state) ==> x.position > 0)
    ensures Spends(x, Next(x, c).0, Next(x, c).1)
  {}

  lemma NextSpendsForKernel(x: Context, c: char)
    requires Shaped(x) && !ForUser(x.state) && (AtOpenQuote(x.state) ==> x.position > 0)
    ensures Spends(x, Next(x, c).0, Next(x, c).1)
  {}

  /** After n items: two characters were there for each of them. */
  ghost predicate Spent(x: Context, line: string, n: nat) {
    && OnLine(x, line) && (!x.done && AtOpenQuote(x.state) ==> x.position > 0)
    && 2 * n <= if x.done then x.position else Before(x)
  }

  lemma StepSpends(x: Context, line: string, n: nat)
    requires !x.done && Shaped(x) && Spent(x, line, n)
    ensures var (y, a) := Step(x, line); Spent(y, line, n + Number(a))
  {
    if x.position < MAX_PARSE_LENGTH {
      var x0 := if x.position >= MAX_VALID_LENGTH then x.(errors := x.errors.(tooLong := true)) else x;
      NextSpends(x0, CharAt(line, x.position));
    }
  }

  lemma {:induction false} FewFrom(x: Context, line: string, written: nat, n: nat)
    requires Kept(x, line, written) && Spent(x, line, n)
    ensures 2 * (n + |ItemsFrom(x, line)|) <= |line| + 1
    decreases Left(x, line)
  {
    if !x.done {
      var (y, a) := Step(x, line);
      StepKeeps(x, line, written);
      StepSpends(x, line, n);
      StepOnLine(x, line);
      FewFrom(y, line, written + Bytes(Found(a, y, line)), n + Number(a));
    }
  }

  /** There are no more items than half the characters of the line, with its end. */
  lemma ItemsFew(line: string)
    ensures 2 * |Items(line)| <= |line| + 1
  {
    FewFrom(INITIAL, line, 0, 0);
  }

  // ---- Writing a command line down and parsing it back

  datatype Word =
    | RawArgument(text: string)
    | QuotedText(text: string)
    | RawPair(name: string, content: string)
    | QuotedPair(name: string, content: string)

  predicate Plain(s: string) {
    forall i :: 0 <= i < |s| ==> !IsSeparator(s[i])
  }

  predicate Quotable(s: string) {
    NoNul(s) && forall i :: 0 <= i < |s| ==> s[i] != '"'
  }

  predicate DoubleDash(s: string) {
    |s| >= 2 && s[0] == '-' && s[1] == '-'
  }

  /** No equal sign where one would end a name: it may be the first character, or follow a leading dash. */
  predicate NoEqual(s: string) {
    forall i :: 0 < i < |s| && (s[0] == '-' ==> 1 < i) ==> s[i] != '='
  }

  /** A name as it can be written without quotes. */
  predicate Bare(s: string) {
    s != "" && Plain(s) && s[0] != '"' && NoEqual(s) && s != "-" && !DoubleDash(s)
  }

  /** A value as it can be written without quotes. */
  predicate BareValue(s: string) {
    Plain(s) && (s == "" || s[0] != '"')
  }

  predicate Writable(w: Word) {
    match w
    case RawArgument(text) => Bare(text)
    case QuotedText(text) => Quotable(text)
    case RawPair(name, content) => Bare(name) && BareValue(content)
    case QuotedPair(name, content) => Bare(name) && Quotable(content)
  }

  function Written(w: Word): string {
    match w
    case RawArgument(text) => text
    case QuotedText(text) => "\"" + text + "\""
    case RawPair(name, content) => name + "=" + content
    case QuotedPair(name, content) => name + "=\"" + content + "\""
  }

  function Meaning(w: Word): Item {
    match w
    case RawArgument(text) => Arg(text)
    case QuotedText(text) => Arg(text)
    case RawPair(name, content) => Pair(name, content)
    case QuotedPair(name, content) => Pair(name, content)
  }

  /** The text s is on the line at position p. */
  ghost predicate Has(line: string, p: nat, s: string) {
    p + |s| <= |line| && line[p..p + |s|] == s
  }

  ghost predicate Running(x: Context, line: string) {
    !x.done && x.position <= |line| < MAX_VALID_LENGTH
  }

  /** From x the automaton finds these items and gets to y, whatever it has found before. */
  ghost predicate Yields(x: Context, line: string, items: seq<Item>, y: Context)
    requires OnLine(x, line) && OnLine(y, line)
  {
    forall before: seq<Item> {:trigger before + ItemsFrom(x, line)} ::
      before + ItemsFrom(x, line) == before + (items + ItemsFrom(y, line))
  }

  lemma Then(x: Context, y: Context, z: Context, line: string, a: seq<Item>, b: seq<Item>)
    requires OnLine(x, line) && OnLine(y, line) && OnLine(z, line) && Yields(x, line, a, y) && Yields(y, line, b, z)
    ensures Yields(x, line, a + b, z)
  {
    forall before: seq<Item>
      ensures before + ItemsFrom(x, line) == before + ((a + b) + ItemsFrom(z, line))
    {
      assert (before + a) + ItemsFrom(y, line) == (before + a) + (b + ItemsFrom(z, line));
      Regroup(before, ItemsFrom(x, line), a, ItemsFrom(y, line), b, ItemsFrom(z, line));
    }
  }

  lemma Regroup(before: seq<Item>, x: seq<Item>, a: seq<Item>, y: seq<Item>, b: seq<Item>, z: seq<Item>)
    requires before + x == before + (a + y) && (before + a) + y == (before + a) + (b + z)
    ensures before + x == before + ((a + b) + z)
  {
    assert before + (a + y) == (before + a) + y;
    assert (before + a) + (b + z) == before + ((a + b) + z);
  }

  lemma QuietThen(x: Context, y: Context, z: Context, line: string, items: seq<Item>)
    requires OnLine(x, line) && OnLine(y, line) && OnLine(z, line) && Yields(x, line, [], y) && Yields(y, line, items, z)
    ensures Yields(x, line, items, z)
  {
    Then(x, y, z, line, [], items);
    assert [] + items == items;
  }

  lemma ThenQuiet(x: Context, y: Context, z: Context, line: string, items: seq<Item>)
    requires OnLine(x, line) && OnLine(y, line) && OnLine(z, line) && Yields(x, line, items, y) && Yields(y, line, [], z)
    ensures Yields(x, line, items, z)
  {
    Then(x, y, z, line, items, []);
    assert items + [] == items;
  }

  lemma YieldsItself(x: Context, line: string)
    requires OnLine(x, line)
    ensures Yields(x, line, [], x)
  {
    assert [] + ItemsFrom(x, line) == ItemsFrom(x, line);
  }

  lemma HasParts(line: string, p: nat, a: string, b: string)
    requires Has(line, p, a + b)
    ensures Has(line, p, a) && Has(line, p + |a|, b)
  {
    var s := line[p..p + |a + b|];
    assert line[p..p + |a|] == s[..|a|] && line[p + |a|..p + |a| + |b|] == s[|a|..];
  }

  lemma HasFirst(line: string, p: nat, s: string)
    requires Has(line, p, s) && s != ""
    ensures p < |line| && line[p] == s[0] && Has(line, p + 1, s[1..])
  {
    assert s == [s[0]] + s[1..];
    HasParts(line, p, [s[0]], s[1..]);
    assert line[p..p + 1][0] == s[0];
  }

  lemma TextIs(line: string, p: nat, s: string)
    requires Has(line, p, s)
    ensures Text(line, Token(p, |s|)) == s
  {}

  /** The context after a character. */
  function After(x: Context, c: char): Context {
    var y := Next(x, c).0;
    y.(position := x.position + 1, done := y.done || c == NUL)
  }

  /** One turn on a known character, or on the end of the line. */
  lemma Turn(x: Context, line: string, c: char)
    requires Running(x, line) && CharAt(line, x.position) == c
    ensures OnLine(After(x, c), line) && Yields(x, line, Found(Next(x, c).1, After(x, c), line), After(x, c))
  {
    StepOnLine(x, line);
    assert Step(x, line) == (After(x, c), Next(x, c).1);
  }

  predicate IsBlank(c: char) {
    c == ' ' || c == '\t'
  }

  /** In this state the automaton passes over the character. */
  predicate PassesOver(s: State, c: char) {
    match s
    case Start | UserStart => IsBlank(c)
    case Name | UserArgument => c != '=' && !IsSeparator(c)
    case Value | UserValue => !IsSeparator(c)
    case QuotedValue | QuotedArgument | UserQuotedValue | UserQuotedArgument => c != '"' && c != NUL
    case _ => false
  }

  predicate AllPass(state: State, s: string) {
    forall i {:trigger PassesOver(state, s[i])} :: 0 <= i < |s| ==> PassesOver(state, s[i])
  }

  /** A stretch of text in one state. */
  lemma PassText(x: Context, line: string, s: string)
    requires Running(x, line) && Has(line, x.position, s) && AllPass(x.state, s)
    ensures Yields(x, line, [], x.(position := x.position + |s|))
  {
    forall k | x.position <= k < x.position + |s| ensures PassesOver(x.state, line[k]) {
      assert line[k] == line[x.position..x.position + |s|][k - x.position];
      assert PassesOver(x.state, s[k - x.position]);
    }
    PassOver(x, line, x.position + |s|);
  }

  lemma {:induction false} PassOver(x: Context, line: string, j: nat)
    requires Running(x, line) && x.position <= j <= |line|
    requires forall k :: x.position <= k < j ==> PassesOver(x.state, line[k])
    ensures Yields(x, line, [], x.(position := j))
    decreases j - x.position
  {
    if x.position == j {
      YieldsItself(x, line);
    } else {
      var x1 := x.(position := x.position + 1);
      PassOne(x, line, line[x.position]);
      PassOver(x1, line, j);
      QuietThen(x, x1, x.(position := j), line, []);
    }
  }

  lemma PassOne(x: Context, line: string, c: char)
    requires Running(x, line) && x.position < |line| && line[x.position] == c && PassesOver(x.state, c)
    ensures Yields(x, line, [], x.(position := x.position + 1))
  {
    Turn(x, line, c);
    assert After(x, c) == x.(position := x.position + 1) && Next(x, c).1 == Nothing;
  }

  /** The first character of a stretch takes the automaton into a state that passes over the rest. */
  lemma RunStretch(x: Context, line: string, s: string, y: Context)
    requires Running(x, line) && s != "" && Has(line, x.position, s) && s[0] != NUL
    requires Next(x, s[0]) == (y, Nothing) && !y.done && AllPass(y.state, s[1..])
    ensures Running(y.(position := x.position + |s|), line) && Yields(x, line, [], y.(position := x.position + |s|))
  {
    HasFirst(line, x.position, s);
    var x1 := y.(position := x.position + 1);
    QuietTurn(x, line, s[0], x1);
    PassText(x1, line, s[1..]);
    QuietThen(x, x1, y.(position := x.position + |s|), line, []);
  }

  /** What names, values, quoted texts and blanks are passed over in. */
  lemma NamePasses(s: string)
    requires s != "" && Plain(s) && forall i :: 0 < i < |s| ==> s[i] != '='
    ensures AllPass(Name, s[1..]) && AllPass(UserArgument, s[1..])
  {}

  lemma ValuePasses(s: string)
    requires s != "" && Plain(s)
    ensures AllPass(Value, s[1..]) && AllPass(UserValue, s[1..])
  {}

  lemma QuotedPasses(s: string, state: State)
    requires s != "" && Quotable(s) && (state == QuotedArgument || state == QuotedValue || state == UserQuotedArgument)
    ensures AllPass(state, s[1..])
  {}

  lemma BlankPasses(s: string)
    requires s != "" && Blank(s)
    ensures AllPass(Start, s[1..]) && AllPass(UserStart, s[1..])
  {}

  /** A quiet turn on the next character. */
  lemma QuietTurn(x: Context, line: string, c: char, x1: Context)
    requires Running(x, line) && HasChar(line, x.position, c) && c != NUL
    requires x1 == After(x, c) && Next(x, c).1 == Nothing && !x1.done
    ensures Running(x1, line) && Yields(x, line, [], x1)
  {
    Turn(x, line, c);
  }

  /** Quiet turns on the next two characters. */
  lemma TwoTurns(x: Context, line: string, c: char, x1: Context, d: char, x2: Context)
    requires Running(x, line) && HasChar(line, x.position, c) && HasChar(line, x.position + 1, d) && c != NUL && d != NUL
    requires x1 == After(x, c) && Next(x, c).1 == Nothing && !x1.done && x2 == After(x1, d) && Next(x1, d).1 == Nothing && !x2.done
    ensures Running(x2, line) && Yields(x, line, [], x2)
  {
    QuietTurn(x, line, c, x1);
    QuietTurn(x1, line, d, x2);
    QuietThen(x, x1, x2, line, []);
  }

  // ---- Separators

  /** The character c is on the line at position p. */
  ghost predicate HasChar(line: string, p: nat, c: char) {
    p < |line| && line[p] == c
  }

  /** A blank, or the end of the line, is at position p. */
  ghost predicate SepAt(line: string, p: nat) {
    p == |line| || (p < |line| && IsBlank(line[p]))
  }

  predicate TakesSeparator(s: State) {
    match s
    case Name | Equal | Value | EndQuote | Dash2 => true
    case UserArgument | UserEqual | UserValue | UserValueEndQuote | UserEndQuote => true
    case _ => false
  }

  /** The separator at position p has been read: at the end of the line nothing is left. */
  ghost predicate Ended(y: Context, line: string, s: State, p: nat) {
    |line| < MAX_VALID_LENGTH && OnLine(y, line) && y.state == s && y.position == p + 1 && (y.done <==> p == |line|)
  }

  /** The separator after a word does the same whichever it is. */
  lemma EndTurn(x: Context, line: string) returns (y: Context)
    requires Running(x, line) && SepAt(line, x.position) && TakesSeparator(x.state)
    ensures var (z, a) := Next(x, ' ');
            && Ended(y, line, z.state, x.position) && y.option == z.option && y.value == z.value
            && Yields(x, line, Found(a, y, line), y)
  {
    var c := CharAt(line, x.position);
    assert Next(x, c) == Next(x, ' ');
    Turn(x, line, c);
    y := After(x, c);
  }

  predicate Blank(s: string) {
    forall i :: 0 <= i < |s| ==> IsBlank(s[i])
  }

  /** Position p has been reached; when it is the end of the line the end may have been read. */
  ghost predicate Reached(y: Context, line: string, s: State, p: nat) {
    |line| < MAX_VALID_LENGTH && OnLine(y, line) && y.state == s && if y.done then p == |line| else y.position == p
  }

  /** The blanks after a word, the first of which has been read already. */
  lemma RunGap(x: Context, line: string, s: State, p: nat, gap: string) returns (y: Context)
    requires Ended(x, line, s, p) && (s == Start || s == UserStart)
    requires Has(line, p, gap) && Blank(gap) && (gap == "" ==> p == |line|)
    ensures Reached(y, line, s, p + |gap|) && Yields(x, line, [], y)
  {
    if gap == "" {
      YieldsItself(x, line);
      y := x;
    } else {
      HasFirst(line, p, gap);
      BlankPasses(gap);
      PassText(x, line, gap[1..]);
      y := x.(position := p + |gap|);
    }
  }

  // ---- Words for the kernel

  lemma HasEnd(line: string, p: nat, a: string, c: char)
    requires Has(line, p, a + [c])
    ensures Has(line, p, a) && HasChar(line, p + |a|, c)
  {
    HasParts(line, p, a, [c]);
    assert line[p + |a|..p + |a| + 1][0] == c;
  }

  /** From the start of a bare name to the character after it. */
  lemma RunName(x: Context, line: string, name: string)
    requires Running(x, line) && x.state == Start && Bare(name) && Has(line, x.position, name)
    ensures Yields(x, line, [], OptionFrom(x, Name).(position := x.position + |name|))
  {
    if name[0] == '-' {
      HasFirst(line, x.position, name);
      NamePasses(name[1..]);
      RunAfterDash(x, line, name[1..]);
    } else {
      RunPlainName(x, line, name);
    }
  }

  lemma RunPlainName(x: Context, line: string, name: string)
    requires Running(x, line) && x.state == Start && Has(line, x.position, name) && name != "" && Plain(name)
    requires name[0] != '-' && name[0] != '"' && forall i :: 0 < i < |name| ==> name[i] != '='
    ensures Yields(x, line, [], OptionFrom(x, Name).(position := x.position + |name|))
  {
    NamePasses(name);
    RunStretch(x, line, name, OptionFrom(x, Name));
  }

  /** After a leading dash the next character, if it is not one too, is part of the name. */
  lemma RunAfterDash(x: Context, line: string, s: string)
    requires Running(x, line) && x.state == Start && HasChar(line, x.position, '-') && Has(line, x.position + 1, s)
    requires s != "" && s[0] != '-' && s[0] != NUL && AllPass(Name, s[1..])
    ensures Yields(x, line, [], OptionFrom(x, Name).(position := x.position + 1 + |s|))
  {
    var x1 := OptionFrom(x, Dash1).(position := x.position + 1);
    QuietTurn(x, line, '-', x1);
    RunStretch(x1, line, s, To(x1, Name));
    QuietThen(x, x1, OptionFrom(x, Name).(position := x.position + 1 + |s|), line, []);
  }

  lemma RunRawArgument(x: Context, line: string, text: string) returns (y: Context)
    requires Running(x, line) && x.state == Start && Bare(text)
    requires Has(line, x.position, text) && SepAt(line, x.position + |text|)
    ensures Ended(y, line, Start, x.position + |text|) && Yields(x, line, [Arg(text)], y)
  {
    RunName(x, line, text);
    TextIs(line, x.position, text);
    var x1 := OptionFrom(x, Name).(position := x.position + |text|);
    y := EndTurn(x1, line);
    assert Found(Next(x1, ' ').1, y, line) == [Arg(text)];
    QuietThen(x, x1, y, line, [Arg(text)]);
  }

  /** From a name to the character after its equal sign. */
  lemma RunNameEqual(x: Context, line: string, name: string) returns (y: Context)
    requires Running(x, line) && x.state == Start && Bare(name)
    requires Has(line, x.position, name) && HasChar(line, x.position + |name|, '=')
    ensures Running(y, line) && y.state == Equal && y.position == x.position + |name| + 1
    ensures Text(line, y.option) == name && Yields(x, line, [], y)
  {
    RunName(x, line, name);
    TextIs(line, x.position, name);
    var x1 := OptionFrom(x, Name).(position := x.position + |name|);
    y := OptionEnds(x1, Equal).(position := x1.position + 1);
    QuietTurn(x1, line, '=', y);
    QuietThen(x, x1, y, line, []);
  }

  /** An unquoted value, which may be empty, and the separator after it. */
  lemma RunValue(x: Context, line: string, content: string) returns (y: Context)
    requires Running(x, line) && x.state == Equal && BareValue(content)
    requires Has(line, x.position, content) && SepAt(line, x.position + |content|)
    ensures Ended(y, line, Start, x.position + |content|) && Yields(x, line, [Pair(Text(line, x.option), content)], y)
  {
    TextIs(line, x.position, content);
    if content == "" {
      y := EndTurn(x, line);
      assert Found(Next(x, ' ').1, y, line) == [Pair(Text(line, x.option), content)];
    } else {
      ValuePasses(content);
      RunStretch(x, line, content, ValueFrom(x, Value));
      var x1 := ValueFrom(x, Value).(position := x.position + |content|);
      y := EndTurn(x1, line);
      assert Found(Next(x1, ' ').1, y, line) == [Pair(Text(line, x.option), content)];
      QuietThen(x, x1, y, line, [Pair(Text(line, x.option), content)]);
    }
  }

  predicate AtOpenQuote(s: State) {
    s == ArgumentStartQuote || s == ValueStartQuote || s == UserStartQuote
  }

  function Opened(x: Context): Context
    requires AtOpenQuote(x.state)
  {
    match x.state
    case ArgumentStartQuote => OptionFrom(x, QuotedArgument)
    case ValueStartQuote => ValueFrom(x, QuotedValue)
    case UserStartQuote => OptionFrom(x, UserQuotedArgument)
  }

  function InQuotes(x: Context, s: string): Context
    requires AtOpenQuote(x.state)
  {
    if s == "" then x else Opened(x).(position := x.position + |s|)
  }

  /** The quoted text itself. */
  lemma RunQuotedText(x: Context, line: string, s: string)
    requires Running(x, line) && AtOpenQuote(x.state) && Quotable(s) && Has(line, x.position, s)
    ensures Running(InQuotes(x, s), line) && Yields(x, line, [], InQuotes(x, s))
  {
    if s == "" {
      YieldsItself(x, line);
    } else {
      QuotedPasses(s, Opened(x).state);
      RunOpened(x, line, s);
    }
  }

  lemma RunOpened(x: Context, line: string, s: string)
    requires Running(x, line) && AtOpenQuote(x.state) && s != "" && s[0] != '"' && s[0] != NUL && Has(line, x.position, s)
    requires AllPass(Opened(x).state, s[1..])
    ensures Running(InQuotes(x, s), line) && Yields(x, line, [], InQuotes(x, s))
  {
    var y := Opened(x);
    assert InQuotes(x, s) == y.(position := x.position + |s|);
    assert Next(x, s[0]) == (y, Nothing) && !y.done by {
      OpensQuote(x, s[0]);
    }
    RunStretch(x, line, s, y);
  }

  lemma OpensQuote(x: Context, c: char)
    requires AtOpenQuote(x.state) && c != '"' && c != NUL
    ensures Next(x, c) == (Opened(x), Nothing)
  {}

  function QuotedItem(x: Context, line: string, s: string): Item {
    if x.state == ValueStartQuote then Pair(Text(line, x.option), s) else Arg(s)
  }

  /** The closing quote yields the argument, or the pair. */
  lemma CloseQuote(x: Context, line: string, s: string) returns (z: Context)
    requires AtOpenQuote(x.state) && Running(InQuotes(x, s), line)
    requires Has(line, x.position, s) && HasChar(line, x.position + |s|, '"')
    ensures Running(z, line) && z.position == x.position + |s| + 1
    ensures z.state == if x.state == UserStartQuote then UserEndQuote else EndQuote
    ensures Yields(InQuotes(x, s), line, [QuotedItem(x, line, s)], z)
  {
    TextIs(line, x.position, s);
    var y := InQuotes(x, s);
    Turn(y, line, '"');
    z := After(y, '"');
    assert Found(Next(y, '"').1, z, line) == [QuotedItem(x, line, s)];
  }

  /** The text s in quotes, from after the opening one, and a separator. */
  ghost predicate HasQuoted(line: string, p: nat, s: string) {
    Has(line, p, s) && HasChar(line, p + |s|, '"') && SepAt(line, p + |s| + 1)
  }

  /** From the opening quote to the separator after the closing one. */
  lemma RunQuoted(x: Context, line: string, s: string) returns (y: Context)
    requires Running(x, line) && AtOpenQuote(x.state) && Quotable(s) && HasQuoted(line, x.position, s)
    ensures Ended(y, line, if x.state == UserStartQuote then UserStart else Start, x.position + |s| + 1)
    ensures Yields(x, line, [QuotedItem(x, line, s)], y)
  {
    RunQuotedText(x, line, s);
    var z := CloseQuote(x, line, s);
    QuietThen(x, InQuotes(x, s), z, line, [QuotedItem(x, line, s)]);
    y := EndTurn(z, line);
    ThenQuiet(x, z, y, line, [QuotedItem(x, line, s)]);
  }

  /** A quoted text as an argument, before or after the double dash. */
  lemma RunQuotedArgument(x: Context, line: string, text: string) returns (y: Context)
    requires Running(x, line) && (x.state == Start || x.state == UserStart)
    requires Quotable(text) && HasChar(line, x.position, '"') && HasQuoted(line, x.position + 1, text)
    ensures Ended(y, line, x.state, x.position + |text| + 2) && Yields(x, line, [Arg(text)], y)
  {
    var x1 := To(x, if x.state == Start then ArgumentStartQuote else UserStartQuote).(position := x.position + 1);
    QuietTurn(x, line, '"', x1);
    y := RunQuoted(x1, line, text);
    QuietThen(x, x1, y, line, [Arg(text)]);
  }

  lemma RunQuotedPair(x: Context, line: string, name: string, content: string) returns (y: Context)
    requires Running(x, line) && x.state == Start && Bare(name) && Quotable(content)
    requires Has(line, x.position, name) && HasChar(line, x.position + |name|, '=')
    requires HasChar(line, x.position + |name| + 1, '"') && HasQuoted(line, x.position + |name| + 2, content)
    ensures Ended(y, line, Start, x.position + |name| + |content| + 3) && Yields(x, line, [Pair(name, content)], y)
  {
    var x1 := RunNameEqual(x, line, name);
    var x2 := To(x1, ValueStartQuote).(position := x1.position + 1);
    QuietTurn(x1, line, '"', x2);
    QuietThen(x, x1, x2, line, []);
    y := RunQuoted(x2, line, content);
    QuietThen(x, x2, y, line, [Pair(name, content)]);
  }

  lemma RunRawPair(x: Context, line: string, name: string, content: string) returns (y: Context)
    requires Running(x, line) && x.state == Start && Writable(RawPair(name, content))
    requires Has(line, x.position, name) && HasChar(line, x.position + |name|, '=')
    requires Has(line, x.position + |name| + 1, content) && SepAt(line, x.position + |name| + 1 + |content|)
    ensures Ended(y, line, Start, x.position + |name| + 1 + |content|) && Yields(x, line, [Pair(name, content)], y)
  {
    var x1 := RunNameEqual(x, line, name);
    y := RunValue(x1, line, content);
    QuietThen(x, x1, y, line, [Pair(name, content)]);
  }

  /** A quoted text where it is expected. */
  lemma InQuotesParts(line: string, p: nat, s: string)
    requires Has(line, p, "\"" + s + "\"") && SepAt(line, p + |s| + 2)
    ensures HasChar(line, p, '"') && HasQuoted(line, p + 1, s)
  {
    assert "\"" + s + "\"" == "\"" + (s + "\"");
    HasParts(line, p, "\"", s + "\"");
    HasEnd(line, p, "", '"');
    HasEnd(line, p + 1, s, '"');
  }

  lemma RawPairParts(line: string, p: nat, name: string, content: string)
    requires Has(line, p, name + "=" + content)
    ensures Has(line, p, name) && HasChar(line, p + |name|, '=') && Has(line, p + |name| + 1, content)
  {
    HasParts(line, p, name + "=", content);
    HasEnd(line, p, name, '=');
  }

  lemma QuotedPairParts(line: string, p: nat, name: string, content: string)
    requires Has(line, p, name + "=\"" + content + "\"") && SepAt(line, p + |name| + |content| + 3)
    ensures Has(line, p, name) && HasChar(line, p + |name|, '=')
    ensures HasChar(line, p + |name| + 1, '"') && HasQuoted(line, p + |name| + 2, content)
  {
    var rest := "\"" + content + "\"";
    assert name + "=\"" + content + "\"" == (name + "=") + rest;
    HasParts(line, p, name + "=", rest);
    HasEnd(line, p, name, '=');
    InQuotesParts(line, p + |name| + 1, content);
  }

  lemma RunWord(x: Context, line: string, w: Word) returns (y: Context)
    requires Running(x, line) && x.state == Start && Writable(w)
    requires Has(line, x.position, Written(w)) && SepAt(line, x.position + |Written(w)|)
    ensures Ended(y, line, Start, x.position + |Written(w)|) && Yields(x, line, [Meaning(w)], y)
  {
    match w {
      case RawArgument(text) =>
        y := RunRawArgument(x, line, text);
      case QuotedText(text) =>
        InQuotesParts(line, x.position, text);
        y := RunQuotedArgument(x, line, text);
      case _ =>
        y := RunPair(x, line, w);
    }
  }

  lemma RunPair(x: Context, line: string, w: Word) returns (y: Context)
    requires Running(x, line) && x.state == Start && (w.RawPair? || w.QuotedPair?) && Writable(w)
    requires Has(line, x.position, Written(w)) && SepAt(line, x.position + |Written(w)|)
    ensures Ended(y, line, Start, x.position + |Written(w)|) && Yields(x, line, [Meaning(w)], y)
  {
    if w.RawPair? {
      RawPairParts(line, x.position, w.name, w.content);
      y := RunRawPair(x, line, w.name, w.content);
    } else {
      QuotedPairParts(line, x.position, w.name, w.content);
      y := RunQuotedPair(x, line, w.name, w.content);
    }
  }

  // ---- Words for user space

  /** What can follow the double dash: everything is an argument, and quotes after an equal sign belong to it. */
  datatype UserWord =
    | UserRaw(text: string)
    | UserQuoted(text: string)
    | UserPair(name: string, content: string)
    | UserSetting(name: string, content: string)

  /** After the double dash a word may start with any dashes. */
  predicate UserBare(s: string) {
    s != "" && Plain(s) && s[0] != '"' && forall i :: 0 < i < |s| ==> s[i] != '='
  }

  predicate UserWritable(w: UserWord) {
    match w
    case UserRaw(text) => UserBare(text)
    case UserQuoted(text) => Quotable(text)
    case UserPair(name, content) => UserBare(name) && BareValue(content)
    case UserSetting(name, content) => UserBare(name) && Quotable(content)
  }

  function UserWritten(w: UserWord): string {
    match w
    case UserRaw(text) => text
    case UserQuoted(text) => "\"" + text + "\""
    case UserPair(name, content) => name + "=" + content
    case UserSetting(name, content) => name + "=\"" + content + "\""
  }

  function UserMeaning(w: UserWord): Item {
    match w
    case UserQuoted(text) => Arg(text)
    case _ => Arg(UserWritten(w))
  }

  /** Inside an argument that starts at p. */
  ghost predicate InArgument(y: Context, line: string, s: State, p: nat, q: nat) {
    Running(y, line) && y.state == s && y.option.start == p && y.position == q
  }

  lemma RunUserName(x: Context, line: string, name: string) returns (y: Context)
    requires Running(x, line) && x.state == UserStart && UserBare(name) && Has(line, x.position, name)
    ensures InArgument(y, line, UserArgument, x.position, x.position + |name|) && Yields(x, line, [], y)
  {
    NamePasses(name);
    RunStretch(x, line, name, OptionFrom(x, UserArgument));
    y := OptionFrom(x, UserArgument).(position := x.position + |name|);
  }

  /** A quiet turn inside an argument. */
  lemma UserTurn(x: Context, line: string, c: char, s: State) returns (y: Context)
    requires Running(x, line) && HasChar(line, x.position, c) && c != NUL && Next(x, c) == (To(x, s), Nothing)
    ensures InArgument(y, line, s, x.option.start, x.position + 1) && Yields(x, line, [], y)
  {
    y := To(x, s).(position := x.position + 1);
    QuietTurn(x, line, c, y);
  }

  /** The separator after an argument. */
  lemma EndUserArgument(x: Context, line: string, start: nat, text: string) returns (y: Context)
    requires InArgument(x, line, x.state, start, start + |text|)
    requires x.state == UserArgument || x.state == UserEqual || x.state == UserValue || x.state == UserValueEndQuote
    requires Has(line, start, text) && SepAt(line, x.position)
    ensures Ended(y, line, UserStart, x.position) && Yields(x, line, [Arg(text)], y)
  {
    TextIs(line, start, text);
    y := EndTurn(x, line);
    assert Found(Next(x, ' ').1, y, line) == [Arg(text)];
  }

  lemma RunUserRaw(x: Context, line: string, text: string) returns (y: Context)
    requires Running(x, line) && x.state == UserStart && UserBare(text)
    requires Has(line, x.position, text) && SepAt(line, x.position + |text|)
    ensures Ended(y, line, UserStart, x.position + |text|) && Yields(x, line, [Arg(text)], y)
  {
    var x1 := RunUserName(x, line, text);
    y := EndUserArgument(x1, line, x.position, text);
    QuietThen(x, x1, y, line, [Arg(text)]);
  }

  /** A name and an equal sign. */
  lemma RunUserEqual(x: Context, line: string, name: string) returns (y: Context)
    requires Running(x, line) && x.state == UserStart && UserBare(name)
    requires Has(line, x.position, name) && HasChar(line, x.position + |name|, '=')
    ensures InArgument(y, line, UserEqual, x.position, x.position + |name| + 1) && Yields(x, line, [], y)
  {
    var x1 := RunUserName(x, line, name);
    y := UserTurn(x1, line, '=', UserEqual);
    QuietThen(x, x1, y, line, []);
  }

  /** An unquoted value, which may be empty. */
  lemma RunUserValue(x: Context, line: string, content: string) returns (y: Context)
    requires Running(x, line) && x.state == UserEqual && BareValue(content) && Has(line, x.position, content)
    ensures y.state == UserEqual || y.state == UserValue
    ensures InArgument(y, line, y.state, x.option.start, x.position + |content|) && Yields(x, line, [], y)
  {
    if content == "" {
      YieldsItself(x, line);
      y := x;
    } else {
      ValuePasses(content);
      RunStretch(x, line, content, To(x, UserValue));
      y := To(x, UserValue).(position := x.position + |content|);
    }
  }

  /** A quoted value with its quotes. */
  lemma RunUserQuotes(x: Context, line: string, content: string) returns (y: Context)
    requires Running(x, line) && x.state == UserEqual && Quotable(content) && HasChar(line, x.position, '"')
    requires Has(line, x.position + 1, content) && HasChar(line, x.position + |content| + 1, '"')
    ensures InArgument(y, line, UserValueEndQuote, x.option.start, x.position + |content| + 2) && Yields(x, line, [], y)
  {
    var x1 := UserTurn(x, line, '"', UserQuotedValue);
    PassText(x1, line, content);
    var x2 := x1.(position := x1.position + |content|);
    QuietThen(x, x1, x2, line, []);
    y := UserTurn(x2, line, '"', UserValueEndQuote);
    QuietThen(x, x2, y, line, []);
  }

  /** A name, an equal sign and a value, quoted or not, make one argument. */
  lemma RunUserPair(x: Context, line: string, w: UserWord) returns (y: Context)
    requires Running(x, line) && x.state == UserStart && (w.UserPair? || w.UserSetting?) && UserWritable(w)
    requires Has(line, x.position, UserWritten(w)) && SepAt(line, x.position + |UserWritten(w)|)
    ensures Ended(y, line, UserStart, x.position + |UserWritten(w)|) && Yields(x, line, [UserMeaning(w)], y)
  {
    var x1 := RunUserNameValue(x, line, w);
    y := EndUserArgument(x1, line, x.position, UserWritten(w));
    QuietThen(x, x1, y, line, [UserMeaning(w)]);
  }

  ghost predicate AtArgumentEnd(s: State) {
    s == UserEqual || s == UserValue || s == UserValueEndQuote
  }

  lemma RunUserNameValue(x: Context, line: string, w: UserWord) returns (y: Context)
    requires Running(x, line) && x.state == UserStart && (w.UserPair? || w.UserSetting?) && UserWritable(w)
    requires Has(line, x.position, UserWritten(w)) && SepAt(line, x.position + |UserWritten(w)|)
    ensures AtArgumentEnd(y.state) && InArgument(y, line, y.state, x.position, x.position + |UserWritten(w)|)
    ensures Yields(x, line, [], y)
  {
    if w.UserPair? {
      RawPairParts(line, x.position, w.name, w.content);
      var x1 := RunUserEqual(x, line, w.name);
      y := RunUserValue(x1, line, w.content);
      QuietThen(x, x1, y, line, []);
    } else {
      QuotedPairParts(line, x.position, w.name, w.content);
      var x1 := RunUserEqual(x, line, w.name);
      y := RunUserQuotes(x1, line, w.content);
      QuietThen(x, x1, y, line, []);
    }
  }

  lemma RunUserWord(x: Context, line: string, w: UserWord) returns (y: Context)
    requires Running(x, line) && x.state == UserStart && UserWritable(w)
    requires Has(line, x.position, UserWritten(w)) && SepAt(line, x.position + |UserWritten(w)|)
    ensures Ended(y, line, UserStart, x.position + |UserWritten(w)|) && Yields(x, line, [UserMeaning(w)], y)
  {
    match w {
      case UserRaw(text) =>
        y := RunUserRaw(x, line, text);
      case UserQuoted(text) =>
        InQuotesParts(line, x.position, text);
        y := RunQuotedArgument(x, line, text);
      case _ =>
        y := RunUserPair(x, line, w);
    }
  }

  // ---- Whole command lines

  /** A word and the blanks after it. */
  datatype Spaced<W> = Spaced(word: W, gap: string)

  function AllWritten(ws: seq<Spaced<Word>>): string {
    if ws == [] then "" else Written(ws[0].word) + ws[0].gap + AllWritten(ws[1..])
  }

  function AllUserWritten(us: seq<Spaced<UserWord>>): string {
    if us == [] then "" else UserWritten(us[0].word) + us[0].gap + AllUserWritten(us[1..])
  }

  function Meanings(ws: seq<Spaced<Word>>): seq<Item> {
    if ws == [] then [] else [Meaning(ws[0].word)] + Meanings(ws[1..])
  }

  function UserMeanings(us: seq<Spaced<UserWord>>): seq<Item> {
    if us == [] then [] else [UserMeaning(us[0].word)] + UserMeanings(us[1..])
  }

  /** Blanks that separate: there is at least one, except at the end of the line. */
  predicate Separates(gap: string, last: bool) {
    Blank(gap) && (gap == "" ==> last)
  }

  predicate AllWritable(ws: seq<Spaced<Word>>, last: bool) {
    forall i :: 0 <= i < |ws| ==> Writable(ws[i].word) && Separates(ws[i].gap, last && i == |ws| - 1)
  }

  predicate AllUserWritable(us: seq<Spaced<UserWord>>) {
    forall i :: 0 <= i < |us| ==> UserWritable(us[i].word) && Separates(us[i].gap, i == |us| - 1)
  }

  /** From position p on, the line is s. */
  ghost predicate Ends(line: string, p: nat, s: string) {
    p + |s| == |line| && line[p..] == s
  }

  lemma EndsParts(line: string, p: nat, a: string, b: string)
    requires Ends(line, p, a + b)
    ensures Has(line, p, a) && Ends(line, p + |a|, b)
  {
    assert line[p..p + |a|] == line[p..][..|a|] && line[p + |a|..] == line[p..][|a|..];
  }

  /** The next word, the blanks after it and what follows. */
  lemma WordParts(line: string, p: nat, word: string, gap: string, others: string)
    requires Ends(line, p, word + gap + others) && Separates(gap, others == "")
    ensures Has(line, p, word) && SepAt(line, p + |word|) && Has(line, p + |word|, gap)
    ensures (gap == "" ==> p + |word| == |line|) && Ends(line, p + |word| + |gap|, others)
  {
    assert word + gap + others == word + (gap + others);
    EndsParts(line, p, word, gap + others);
    EndsParts(line, p + |word|, gap, others);
    if gap != "" {
      HasFirst(line, p + |word|, gap);
    }
  }

  lemma RunFirst(x: Context, line: string, w: Spaced<Word>, others: string) returns (y: Context)
    requires Running(x, line) && x.state == Start && Writable(w.word) && Separates(w.gap, others == "")
    requires Ends(line, x.position, Written(w.word) + w.gap + others)
    ensures var p := x.position + |Written(w.word)| + |w.gap|; Reached(y, line, Start, p) && Ends(line, p, others)
    ensures Yields(x, line, [Meaning(w.word)], y)
  {
    WordParts(line, x.position, Written(w.word), w.gap, others);
    var x1 := RunWord(x, line, w.word);
    y := RunGap(x1, line, Start, x.position + |Written(w.word)|, w.gap);
    ThenQuiet(x, x1, y, line, [Meaning(w.word)]);
  }

  lemma WordFirst(ws: seq<Spaced<Word>>, rest: string)
    requires ws != [] && Writable(ws[0].word)
    ensures AllWritten(ws) + rest == Written(ws[0].word) + ws[0].gap + (AllWritten(ws[1..]) + rest)
    ensures AllWritten(ws) != ""
  {
    Joined(Written(ws[0].word), ws[0].gap, AllWritten(ws[1..]), rest);
    WrittenSomething(ws[0].word);
  }

  lemma Joined(a: string, b: string, c: string, d: string)
    ensures (a + b + c) + d == a + b + (c + d) && (a != "" ==> a + b + c != "")
  {}

  lemma WrittenSomething(w: Word)
    requires Writable(w)
    ensures Written(w) != ""
  {}

  lemma {:induction false} RunWords(x: Context, line: string, p: nat, ws: seq<Spaced<Word>>, rest: string) returns (y: Context)
    requires Reached(x, line, Start, p) && AllWritable(ws, rest == "") && Ends(line, p, AllWritten(ws) + rest)
    ensures Reached(y, line, Start, p + |AllWritten(ws)|) && Ends(line, p + |AllWritten(ws)|, rest)
    ensures Yields(x, line, Meanings(ws), y)
    decreases |ws|
  {
    if ws == [] {
      assert AllWritten(ws) + rest == rest;
      YieldsItself(x, line);
      y := x;
    } else {
      var others := AllWritten(ws[1..]) + rest;
      WordFirst(ws, rest);
      OthersFollow(ws, rest);
      var x1 := RunFirst(x, line, ws[0], others);
      y := RunWords(x1, line, p + |Written(ws[0].word)| + |ws[0].gap|, ws[1..], rest);
      Then(x, x1, y, line, [Meaning(ws[0].word)], Meanings(ws[1..]));
    }
  }

  /** Only the last word of the line can do without blanks. */
  lemma OthersFollow(ws: seq<Spaced<Word>>, rest: string)
    requires ws != [] && AllWritable(ws, rest == "")
    ensures Separates(ws[0].gap, AllWritten(ws[1..]) + rest == "") && AllWritable(ws[1..], rest == "")
  {
    forall i | 0 <= i < |ws| - 1 ensures Writable(ws[1..][i].word) && Separates(ws[1..][i].gap, rest == "" && i == |ws| - 2) {
      assert ws[1..][i] == ws[i + 1];
    }
  }

  lemma RunUserFirst(x: Context, line: string, w: Spaced<UserWord>, others: string) returns (y: Context)
    requires Running(x, line) && x.state == UserStart && UserWritable(w.word) && Separates(w.gap, others == "")
    requires Ends(line, x.position, UserWritten(w.word) + w.gap + others)
    ensures var p := x.position + |UserWritten(w.word)| + |w.gap|; Reached(y, line, UserStart, p) && Ends(line, p, others)
    ensures Yields(x, line, [UserMeaning(w.word)], y)
  {
    WordParts(line, x.position, UserWritten(w.word), w.gap, others);
    var x1 := RunUserWord(x, line, w.word);
    y := RunGap(x1, line, UserStart, x.position + |UserWritten(w.word)|, w.gap);
    ThenQuiet(x, x1, y, line, [UserMeaning(w.word)]);
  }

  lemma UserWrittenSomething(w: UserWord)
    requires UserWritable(w)
    ensures UserWritten(w) != ""
  {}

  lemma {:induction false} RunUserWords(x: Context, line: string, p: nat, us: seq<Spaced<UserWord>>) returns (y: Context)
    requires Reached(x, line, UserStart, p) && AllUserWritable(us) && Ends(line, p, AllUserWritten(us))
    ensures Reached(y, line, UserStart, |line|) && Yields(x, line, UserMeanings(us), y)
    decreases |us|
  {
    if us == [] {
      YieldsItself(x, line);
      y := x;
    } else {
      UserWrittenSomething(us[0].word);
      OtherUsersFollow(us);
      var x1 := RunUserFirst(x, line, us[0], AllUserWritten(us[1..]));
      y := RunUserWords(x1, line, p + |UserWritten(us[0].word)| + |us[0].gap|, us[1..]);
      Then(x, x1, y, line, [UserMeaning(us[0].word)], UserMeanings(us[1..]));
    }
  }

  lemma OtherUsersFollow(us: seq<Spaced<UserWord>>)
    requires us != [] && AllUserWritable(us)
    ensures Separates(us[0].gap, AllUserWritten(us[1..]) == "") && AllUserWritable(us[1..])
  {
    forall i | 0 <= i < |us| - 1 ensures UserWritable(us[1..][i].word) && Separates(us[1..][i].gap, i == |us| - 2) {
      assert us[1..][i] == us[i + 1];
    }
  }

  /** What comes after the words for the kernel. */
  datatype Tail = NoDashes | Dashes(gap: string, us: seq<Spaced<UserWord>>)

  predicate TailWritable(tail: Tail) {
    tail.Dashes? ==> Separates(tail.gap, tail.us == []) && AllUserWritable(tail.us)
  }

  function TailWritten(tail: Tail): string {
    if tail.Dashes? then "--" + tail.gap + AllUserWritten(tail.us) else ""
  }

  function TailMeaning(tail: Tail): seq<Item> {
    if tail.Dashes? then UserMeanings(tail.us) else []
  }

  /** A command line: blanks, words for the kernel and, after a double dash, words for user space. */
  function CommandLine(lead: string, ws: seq<Spaced<Word>>, tail: Tail): string {
    lead + (AllWritten(ws) + TailWritten(tail))
  }

  lemma AtEnd(x: Context, line: string)
    requires Reached(x, line, x.state, |line|) && (x.state == Start || x.state == UserStart)
    ensures ItemsFrom(x, line) == []
  {
    if !x.done {
      StepOnLine(x, line);
      assert Step(x, line).1 == Nothing && Step(x, line).0.done;
    }
  }

  /** A double dash alone ends the kernel's words. */
  lemma RunDashes(x: Context, line: string, gap: string, others: string) returns (y: Context)
    requires Running(x, line) && x.state == Start && Separates(gap, others == "")
    requires Ends(line, x.position, "--" + gap + others)
    ensures var p := x.position + 2 + |gap|; Reached(y, line, UserStart, p) && Ends(line, p, others)
    ensures Yields(x, line, [], y)
  {
    var p := x.position;
    WordParts(line, p, "--", gap, others);
    assert line[p..p + 2][0] == '-' && line[p..p + 2][1] == '-';
    var x1 := OptionFrom(x, Dash1).(position := p + 1);
    var x2 := To(x1, Dash2).(position := p + 2);
    TwoTurns(x, line, '-', x1, '-', x2);
    var x3 := EndTurn(x2, line);
    QuietThen(x, x2, x3, line, []);
    y := RunGap(x3, line, UserStart, p + 2, gap);
    QuietThen(x, x3, y, line, []);
  }

  lemma RunTail(x: Context, line: string, p: nat, tail: Tail) returns (y: Context)
    requires Reached(x, line, Start, p) && TailWritable(tail) && Ends(line, p, TailWritten(tail))
    ensures Reached(y, line, y.state, |line|) && (y.state == Start || y.state == UserStart)
    ensures Yields(x, line, TailMeaning(tail), y)
  {
    if tail.Dashes? {
      var x1 := RunDashes(x, line, tail.gap, AllUserWritten(tail.us));
      y := RunUserWords(x1, line, p + 2 + |tail.gap|, tail.us);
      QuietThen(x, x1, y, line, UserMeanings(tail.us));
    } else {
      YieldsItself(x, line);
      y := x;
    }
  }

  lemma RunLead(line: string, lead: string, rest: string) returns (y: Context)
    requires Blank(lead) && Ends(line, 0, lead + rest) && |line| < MAX_VALID_LENGTH
    ensures Reached(y, line, Start, |lead|) && Ends(line, |lead|, rest) && OnLine(INITIAL, line) && Yields(INITIAL, line, [], y)
  {
    EndsParts(line, 0, lead, rest);
    PassText(INITIAL, line, lead);
    y := INITIAL.(position := |lead|);
  }

  /**
   * Parsing undoes writing: every list of words is found again, in order, with
   * its quotes gone, whatever blanks are between the words and around them.
   */
  lemma ParseWritten(lead: string, ws: seq<Spaced<Word>>, tail: Tail)
    requires Blank(lead) && AllWritable(ws, tail.NoDashes?) && TailWritable(tail)
    requires |CommandLine(lead, ws, tail)| < MAX_VALID_LENGTH
    ensures Items(CommandLine(lead, ws, tail)) == Meanings(ws) + TailMeaning(tail)
  {
    var line := CommandLine(lead, ws, tail);
    assert line[0..] == line;
    var x := RunLead(line, lead, AllWritten(ws) + TailWritten(tail));
    assert TailWritten(tail) == "" <==> tail.NoDashes?;
    var x1 := RunWords(x, line, |lead|, ws, TailWritten(tail));
    QuietThen(INITIAL, x, x1, line, Meanings(ws));
    var y := RunTail(x1, line, |lead| + |AllWritten(ws)|, tail);
    Then(INITIAL, x1, y, line, Meanings(ws), TailMeaning(tail));
    AllFound(line, Meanings(ws) + TailMeaning(tail), y);
  }

  lemma AllFound(line: string, items: seq<Item>, y: Context)
    requires OnLine(INITIAL, line) && Reached(y, line, y.state, |line|) && (y.state == Start || y.state == UserStart)
    requires Yields(INITIAL, line, items, y)
    ensures Items(line) == items
  {
    AtEnd(y, line);
    assert [] + ItemsFrom(INITIAL, line) == [] + (items + ItemsFrom(y, line));
    assert [] + ItemsFrom(INITIAL, line) == Items(line);
    assert [] + (items + []) == items;
  }

  // ---- Words that start with dashes

  /** A word that starts with two dashes loses its first three characters. */
  lemma DashesLost(x: Context, line: string, c: char) returns (y: Context)
    requires Running(x, line) && x.state == Start && !IsSeparator(c)
    requires HasChar(line, x.position, '-') && HasChar(line, x.position + 1, '-') && HasChar(line, x.position + 2, c)
    ensures Running(y, line) && y.state == Start && y.position == x.position + 3 && Yields(x, line, [], y)
  {
    var p := x.position;
    var x1 := OptionFrom(x, Dash1).(position := p + 1);
    var x2 := To(x1, Dash2).(position := p + 2);
    TwoTurns(x, line, '-', x1, '-', x2);
    y := To(x2, Start).(position := p + 3);
    QuietTurn(x2, line, c, y);
    QuietThen(x, x2, y, line, []);
  }

  /** After a single dash even a separator becomes part of the word, with what comes after it. */
  lemma DashSwallows(blank: char, s: string)
    requires IsBlank(blank) && |s| + 2 < MAX_VALID_LENGTH && AllPass(Name, s)
    ensures var line := "-" + [blank] + s; Items(line) == [Arg(line)]
  {
    var line := "-" + [blank] + s;
    var x, x1 := INITIAL, OptionFrom(INITIAL, Name).(position := |line|);
    assert line[1..|line|] == [blank] + s && line[0..|line|] == line;
    assert ([blank] + s)[1..] == s;
    RunAfterDash(x, line, [blank] + s);
    var y := EndTurn(x1, line);
    TextIs(line, 0, line);
    assert Found(Next(x1, ' ').1, y, line) == [Arg(line)];
    QuietThen(x, x1, y, line, [Arg(line)]);
    AllFound(line, [Arg(line)], y);
  }

  /** What is left of a word without its first three characters is too short to be the word. */
  lemma TooShort(text: string, line: string)
    requires Plain(text) && DoubleDash(text) && |text| > 2 && line == text + " " && |line| < MAX_VALID_LENGTH
    ensures Items(line) != [Arg(text)]
  {
    var y := DashesLost(INITIAL, line, text[2]);
    FirstYield(line, y);
    KeptFrom(y, line);
    ItemsKept(y, line, 3);
    BytesOne(text);
  }

  lemma FirstYield(line: string, y: Context)
    requires OnLine(INITIAL, line) && OnLine(y, line) && Yields(INITIAL, line, [], y)
    ensures Items(line) == ItemsFrom(y, line)
  {
    assert [] + ItemsFrom(INITIAL, line) == [] + ([] + ItemsFrom(y, line));
    assert [] + ItemsFrom(INITIAL, line) == Items(line) && [] + ([] + ItemsFrom(y, line)) == ItemsFrom(y, line);
  }

  lemma BytesOne(text: string)
    ensures Bytes([Arg(text)]) == |text| + 1
  {}

  lemma KeptFrom(y: Context, line: string)
    requires Running(y, line) && y.state == Start && y.position == 3 && NoNul(line)
    ensures Kept(y, line, 3)
  {}

  /** A word without an equal sign and without quotes is found whole if and only if it is no dash and does not start with two. */
  lemma WholeWordIff(text: string)
    requires text != "" && Plain(text) && text[0] != '"' && NoEqual(text) && |text| + 1 < MAX_VALID_LENGTH
    ensures Items(text + " ") == [Arg(text)] <==> text != "-" && !DoubleDash(text)
  {
    var line := text + " ";
    if text == "-" {
      DashSwallows(' ', "");
      assert "-" + [' '] + "" == line;
    } else if text == "--" {
      assert CommandLine("", [], Dashes(" ", [])) == line;
      ParseWritten("", [], Dashes(" ", []));
    } else if DoubleDash(text) {
      TooShort(text, line);
    } else {
      var ws := [Spaced(RawArgument(text), " ")];
      assert AllWritten(ws[1..]) == "" && Meanings(ws[1..]) == [];
      assert CommandLine("", ws, NoDashes) == line;
      ParseWritten("", ws, NoDashes);
    }
  }
}
