/** The message handler of index.mjs: prefix filter, tokenizer and dispatch
    to the command registry. */
module Dispatch {
  import Text
  import opened Commands

  const Prefix: string := "!"

  datatype Message = Message(authorIsBot: bool, content: string)

  /** What the handler does with a message: nothing, run a command (whose
      own replies are not modelled), send the generic error reply after the
      command threw, or send the "Unknown command!" reply. */
  datatype Response = Ignored | Executed(name: string, args: seq<string>) | ErrorReply(name: string) | UnknownCommand

  predicate HasPrefix(content: string)
  {
    |content| >= |Prefix| && content[..|Prefix|] == Prefix
  }

  /** The command name and its arguments: the text after the prefix is
      trimmed and split on runs of spaces, the first piece lower-cased and
      shifted off. */
  function Tokenize(text: string): (string, seq<string>)
  {
    var words := Text.SplitSpaces(Text.Trim(text));
    (Text.LowerStr(words[0]), words[1..])
  }

  function RunCommand(cmd: Command, name: string, args: seq<string>): Response
  {
    match cmd.execute(args)
    case Completed => Executed(name, args)
    case Threw => ErrorReply(name)
  }

  /** The handler, looking up only the registry's own entries. */
  function Handle(commands: map<string, Command>, msg: Message): (r: Response)
    ensures r == Ignored <==> msg.authorIsBot || !HasPrefix(msg.content)
    ensures r.Executed? || r.ErrorReply? ==>
      var (name, args) := Tokenize(msg.content[|Prefix|..]);
      name == r.name && name in commands && RunCommand(commands[name], name, args) == r
    ensures r == UnknownCommand ==> Tokenize(msg.content[|Prefix|..]).0 !in commands
  {
    if msg.authorIsBot || !HasPrefix(msg.content) then Ignored
    else
      var (name, args) := Tokenize(msg.content[|Prefix|..]);
      if name in commands then RunCommand(commands[name], name, args) else UnknownCommand
  }

  // ---------------------------------------------------------------------
  // Tokenizing a command line back

  /** A token as a user types it: not empty, no white space in it. */
  predicate Word(t: string)
  {
    t != [] && forall i :: 0 <= i < |t| ==> !Text.IsJsSpace(t[i])
  }

  /** Words joined by single spaces begin with the first word's first
      character and end with the last word's last character. */
  lemma {:induction false} JoinEnds(ts: seq<string>)
    requires |ts| >= 1 && forall k :: 0 <= k < |ts| ==> ts[k] != []
    ensures var s := Text.JoinSpaces(ts);
      s != [] && s[0] == ts[0][0] && s[|s| - 1] == ts[|ts| - 1][|ts[|ts| - 1]| - 1]
  {
    if |ts| > 1 {
      JoinEnds(ts[1..]);
    }
  }

  /** A command line typed as the name and its arguments separated by
      single spaces tokenizes back to the lower-cased name and those arguments. */
  lemma TokenizeRoundTrip(name: string, args: seq<string>)
    requires Word(name) && forall k :: 0 <= k < |args| ==> Word(args[k])
    ensures Tokenize(Text.JoinSpaces([name] + args)) == (Text.LowerStr(name), args)
  {
    var ts := [name] + args;
    assert forall k :: 0 < k < |ts| ==> ts[k] == args[k - 1];
    JoinedWords(ts);
    assert ts[1..] == args;
  }

  /** Words joined by single spaces are already trimmed and split back into those words. */
  lemma JoinedWords(ts: seq<string>)
    requires |ts| >= 1 && forall k :: 0 <= k < |ts| ==> Word(ts[k])
    ensures Text.SplitSpaces(Text.Trim(Text.JoinSpaces(ts))) == ts
  {
    forall k | 0 <= k < |ts| ensures ts[k] != [] && ' ' !in ts[k] {
      assert Word(ts[k]);
    }
    JoinEnds(ts);
    var s := Text.JoinSpaces(ts);
    assert !Text.IsJsSpace(s[0]) && !Text.IsJsSpace(s[|s| - 1]) by {
      assert Word(ts[0]) && Word(ts[|ts| - 1]);
    }
    Text.TrimmedAlready(s);
    Text.JoinSplit(ts);
  }

  /** A message from a person that types a registered (lower-case) name and
      its arguments runs that command with exactly those arguments. */
  lemma RegisteredCommandRuns(commands: map<string, Command>, name: string, args: seq<string>)
    requires Word(name) && Text.LowerStr(name) == name && name in commands
    requires forall k :: 0 <= k < |args| ==> Word(args[k])
    ensures Handle(commands, Message(false, Prefix + Text.JoinSpaces([name] + args)))
            == RunCommand(commands[name], name, args)
  {
    var content := Prefix + Text.JoinSpaces([name] + args);
    assert content[|Prefix|..] == Text.JoinSpaces([name] + args);
    TokenizeRoundTrip(name, args);
  }

  /** The name is matched ignoring case: typing it in capitals runs the same command. */
  lemma NameMatchedIgnoringCase(commands: map<string, Command>, typed: string, args: seq<string>)
    requires Word(typed) && Text.LowerStr(typed) in commands
    requires forall k :: 0 <= k < |args| ==> Word(args[k])
    ensures Handle(commands, Message(false, Prefix + Text.JoinSpaces([typed] + args)))
            == RunCommand(commands[Text.LowerStr(typed)], Text.LowerStr(typed), args)
  {
    var content := Prefix + Text.JoinSpaces([typed] + args);
    assert content[|Prefix|..] == Text.JoinSpaces([typed] + args);
    TokenizeRoundTrip(typed, args);
  }

  // ---------------------------------------------------------------------
  // The lookup as written: `commands[commandName]` on a plain object

  /** The properties every plain object inherits from `Object.prototype`. */
  const ObjectPrototypeKeys: set<string> := {
    "constructor", "__defineGetter__", "__defineSetter__", "hasOwnProperty", "__lookupGetter__",
    "__lookupSetter__", "isPrototypeOf", "propertyIsEnumerable", "toString", "valueOf",
    "__proto__", "toLocaleString"}

  /** The handler as written: an inherited property is truthy but has no
      `execute`, so calling it throws a TypeError, which the handler's catch
      turns into the generic error reply. */
  function HandleAsWritten(commands: map<string, Command>, msg: Message): (r: Response)
    ensures r == Ignored <==> msg.authorIsBot || !HasPrefix(msg.content)
  {
    if msg.authorIsBot || !HasPrefix(msg.content) then Ignored
    else
      var (name, args) := Tokenize(msg.content[|Prefix|..]);
      if name in commands then RunCommand(commands[name], name, args)
      else if name in ObjectPrototypeKeys then ErrorReply(name)
      else UnknownCommand
  }

  /** The two handlers differ only on names the registry lacks and every
      object inherits; since the name is lower-cased first, those are
      "constructor" and "__proto__". */
  lemma AsWrittenDiffersOnlyOnInherited(commands: map<string, Command>, msg: Message)
    ensures HandleAsWritten(commands, msg) != Handle(commands, msg) ==>
      && Handle(commands, msg) == UnknownCommand
      && var name := Tokenize(msg.content[|Prefix|..]).0;
         name !in commands && (name == "constructor" || name == "__proto__")
  {
    if HandleAsWritten(commands, msg) != Handle(commands, msg) {
      var words := Text.SplitSpaces(Text.Trim(msg.content[|Prefix|..]));
      var name := Text.LowerStr(words[0]);
      Text.LowerStrIdempotent(words[0]);
      assert Text.LowerStr(name) == name;
      UpperCaseKeys(name);
    }
  }

  /** Every inherited name but "constructor" and "__proto__" changes when lower-cased. */
  lemma CapitalKeys()
    ensures forall k :: k in ObjectPrototypeKeys && k != "constructor" && k != "__proto__" ==> Text.LowerStr(k) != k
  {
    assert Text.LowerStr("__defineGetter__")[8] != 'G';
    assert Text.LowerStr("__defineSetter__")[8] != 'S';
    assert Text.LowerStr("hasOwnProperty")[3] != 'O';
    assert Text.LowerStr("__lookupGetter__")[8] != 'G';
    assert Text.LowerStr("__lookupSetter__")[8] != 'S';
    assert Text.LowerStr("isPrototypeOf")[2] != 'P';
    assert Text.LowerStr("propertyIsEnumerable")[8] != 'I';
    assert Text.LowerStr("toString")[2] != 'S';
    assert Text.LowerStr("valueOf")[5] != 'O';
    assert Text.LowerStr("toLocaleString")[2] != 'L';
  }

  /** A lower-cased name found among the inherited ones is "constructor" or "__proto__". */
  lemma UpperCaseKeys(name: string)
    requires Text.LowerStr(name) == name && name in ObjectPrototypeKeys
    ensures name == "constructor" || name == "__proto__"
  {
    CapitalKeys();
  }

  /** "!constructor" with no such command registered: the handler as
      written sends the generic error reply, the corrected one the
      "Unknown command!" reply. */
  lemma ConstructorMessage(commands: map<string, Command>)
    requires "constructor" !in commands
    ensures HandleAsWritten(commands, Message(false, "!constructor")) == ErrorReply("constructor")
    ensures Handle(commands, Message(false, "!constructor")) == UnknownCommand
  {
    var name := "constructor";
    assert Word(name);
    assert Text.LowerStr(name) == name by {
      assert |Text.LowerStr(name)| == |name|;
    }
    TokenizeRoundTrip(name, []);
    assert [name] + [] == [name];
    assert "!constructor"[|Prefix|..] == Text.JoinSpaces([name]);
  }
}
