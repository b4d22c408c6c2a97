/**
 * Command tokens and the /help command of src/bot.py. A handler named
 * handle_<a>_<b> answers the commands /a and /b; /help lists every handler
 * with the summary line of its documentation, and /help <cmd> shows the
 * documentation of the first handler answering <cmd>.
 */
module Help {
  import opened Wrappers
  import opened Text

  /** A registered command handler: its method name and its docstring, if any. */
  datatype Handler = Handler(name: string, doc: Option<string>)

  /** The placeholder shown for a handler without documentation. */
  const NoDescription: string := "Без описания"

  datatype HelpEntry = HelpEntry(commands: seq<string>, summary: string)

  datatype HelpReply =
    | Overview(entries: seq<HelpEntry>)
    | CommandDoc(command: string, doc: string)
    | NoSuchCommand
    | Placeholder  // the reply text the handler starts from, before any branch sets it

  /** The commands a handler answers: the underscore-separated pieces of its name after the first. */
  function Tokens(name: string): (ts: seq<string>)
    ensures forall i :: 0 <= i < |ts| ==> '_' !in ts[i]
  {
    Split(name, '_')[1..]
  }

  /** A handler named prefix_t1_..._tn answers exactly t1, ..., tn. */
  lemma TokensOfName(prefix: string, ts: seq<string>)
    requires '_' !in prefix
    requires forall i :: 0 <= i < |ts| ==> '_' !in ts[i]
    ensures Tokens(Join([prefix] + ts, '_')) == ts
  {
    SplitJoin([prefix] + ts, '_');
  }

  /** "handle_help_start" answers /help and /start. */
  lemma HelpStartTokens()
    ensures Tokens("handle_help_start") == ["help", "start"]
  {
    var tail := "help" + ['_'] + "start";
    assert "handle_help_start" == "handle" + ['_'] + tail;
    SplitAfterPiece("handle", tail, '_');
    TwoPieces("help", "start");
  }

  lemma TwoPieces(a: string, b: string)
    requires '_' !in a && '_' !in b
    ensures Split(a + ['_'] + b, '_') == [a, b]
  {
    SplitAfterPiece(a, b, '_');
    SplitWhole(b, '_');
  }

  /** "handle_remind" answers /remind. */
  lemma RemindTokens()
    ensures Tokens("handle_remind") == ["remind"]
  {
    var name := "handle_remind";
    assert name == name[..6] + [name[6]] + name[7..];
    assert name[..6] == "handle" && name[6] == '_' && name[7..] == "remind";
    OnePiece("handle", "remind");
  }

  /** "handle_listOfReminders" answers /listOfReminders. */
  lemma ListTokens()
    ensures Tokens("handle_listOfReminders") == ["listOfReminders"]
  {
    var name := "handle_listOfReminders";
    assert name == name[..6] + [name[6]] + name[7..];
    assert name[..6] == "handle" && name[6] == '_' && name[7..] == "listOfReminders";
    OnePiece("handle", "listOfReminders");
  }

  lemma OnePiece(prefix: string, a: string)
    requires '_' !in prefix && '_' !in a
    ensures Tokens(prefix + ['_'] + a) == [a]
  {
    SplitAfterPiece(prefix, a, '_');
    SplitWhole(a, '_');
  }

  /** valid_commands: the tokens of every handler, in registration order. */
  function AllTokens(hs: seq<Handler>): (ts: seq<string>)
    ensures forall i :: 0 <= i < |ts| ==> '_' !in ts[i]
  {
    if hs == [] then [] else Tokens(hs[0].name) + AllTokens(hs[1..])
  }

  /** Position of the first handler answering arg. */
  function FirstHandlerWith(hs: seq<Handler>, arg: string): (k: Option<nat>)
    ensures k.Some? ==> k.value < |hs| && arg in Tokens(hs[k.value].name)
    ensures k.Some? ==> forall j :: 0 <= j < k.value ==> arg !in Tokens(hs[j].name)
    ensures k.None? ==> forall j :: 0 <= j < |hs| ==> arg !in Tokens(hs[j].name)
  {
    if hs == [] then None
    else if arg in Tokens(hs[0].name) then Some(0)
    else match FirstHandlerWith(hs[1..], arg)
      case None => None
      case Some(k) => Some(k + 1)
  }

  /** An argument is a valid command exactly when some handler answers it. */
  lemma {:induction false} ValidIffAnswered(hs: seq<Handler>, arg: string)
    ensures arg in AllTokens(hs) <==> FirstHandlerWith(hs, arg).Some?
  {
    if hs != [] {
      ValidIffAnswered(hs[1..], arg);
    }
  }

  /** The documentation shown for a handler: its docstring, or the placeholder when that is absent or empty. */
  function DocOrDefault(doc: Option<string>): (d: string)
    ensures d != []
    ensures doc.Some? && doc.value != [] ==> d == doc.value
    ensures !(doc.Some? && doc.value != []) ==> d == NoDescription
  {
    if doc.Some? && doc.value != [] then doc.value else NoDescription
  }

  /** What /help <arg> answers: the documentation of the first handler answering arg, or "no such command". */
  function HelpFor(hs: seq<Handler>, arg: string): (reply: HelpReply)
    ensures reply.CommandDoc? || reply == NoSuchCommand
    ensures reply.CommandDoc? <==> arg in AllTokens(hs)
    ensures reply.CommandDoc? ==> reply.command == arg && reply.doc != []
  {
    ValidIffAnswered(hs, arg);
    match FirstHandlerWith(hs, arg)
    case Some(k) => CommandDoc(arg, DocOrDefault(hs[k].doc))
    case None => NoSuchCommand
  }

  /**
   * The summary line of a docstring in the overview: its second line, stripped
   * (docstrings open with a line break). None when a non-empty docstring has
   * fewer than two lines, where the source indexes past the end.
   */
  function Summary(doc: Option<string>): (summary: Option<string>)
    ensures doc.None? || doc.value == [] ==> summary == Some(NoDescription)
    ensures summary.Some? && summary.value != [] ==>
      !IsSpace(summary.value[0]) && !IsSpace(summary.value[|summary.value| - 1])
  {
    if doc.Some? && doc.value != [] then
      var ls := Lines(doc.value);
      if |ls| >= 2 then Some(Strip(ls[1])) else None
    else Some(NoDescription)
  }

  /**
   * The overview entries, one per handler in registration order: the commands
   * it answers and the summary line `summarize` gives for its docstring. None
   * when some handler has no summary line. The overview uses Summary; the
   * lemmas below hold for any summary rule.
   */
  function Entries(hs: seq<Handler>, summarize: Option<string> -> Option<string>): (es: Option<seq<HelpEntry>>)
    ensures es.Some? ==> |es.value| == |hs|
  {
    if hs == [] then Some([])
    else
      var last := hs[|hs| - 1];
      match Entries(hs[..|hs| - 1], summarize)
      case None => None
      case Some(before) =>
        match summarize(last.doc)
        case None => None
        case Some(summary) => Some(before + [HelpEntry(Tokens(last.name), summary)])
  }

  /** The overview /help gives without arguments; None when some summary line is missing. */
  function OverviewOf(hs: seq<Handler>): (reply: Option<HelpReply>)
    ensures reply.Some? ==> reply.value.Overview? && |reply.value.entries| == |hs|
  {
    match Entries(hs, Summary)
    case None => None
    case Some(es) => Some(Overview(es))
  }

  /**
   * Present entries hold one entry per handler, in order, naming the commands
   * it answers and carrying its summary line.
   */
  lemma {:induction false} EntriesContent(hs: seq<Handler>, summarize: Option<string> -> Option<string>)
    requires Entries(hs, summarize).Some?
    ensures forall i :: 0 <= i < |hs| ==>
      summarize(hs[i].doc).Some? &&
      Entries(hs, summarize).value[i] == HelpEntry(Tokens(hs[i].name), summarize(hs[i].doc).value)
  {
    if hs != [] {
      var n := |hs| - 1;
      var before := Entries(hs[..n], summarize).value;
      EntriesContent(hs[..n], summarize);
      forall i | 0 <= i < n
        ensures summarize(hs[i].doc).Some? &&
          Entries(hs, summarize).value[i] == HelpEntry(Tokens(hs[i].name), summarize(hs[i].doc).value)
      {
        assert hs[..n][i] == hs[i];
        assert Entries(hs, summarize).value[i] == before[i];
      }
    }
  }

  /** A handler without a summary line leaves the entries missing, whatever follows it. */
  lemma {:induction false} EntriesStopAt(hs: seq<Handler>, summarize: Option<string> -> Option<string>, i: nat)
    requires i < |hs| && summarize(hs[i].doc).None?
    ensures Entries(hs, summarize) == None
  {
    if i < |hs| - 1 {
      EntriesStopAt(hs[..|hs| - 1], summarize, i);
    }
  }

  /** The entries are missing exactly when some handler's docstring has no summary line. */
  lemma {:induction false} EntriesMissing(hs: seq<Handler>, summarize: Option<string> -> Option<string>)
    ensures Entries(hs, summarize).None? <==> exists i :: 0 <= i < |hs| && summarize(hs[i].doc).None?
  {
    if exists i :: 0 <= i < |hs| && summarize(hs[i].doc).None? {
      var i :| 0 <= i < |hs| && summarize(hs[i].doc).None?;
      EntriesStopAt(hs, summarize, i);
    } else if hs != [] {
      var n := |hs| - 1;
      EntriesMissing(hs[..n], summarize);
      assert forall i :: 0 <= i < n ==> hs[..n][i] == hs[i];
    }
  }

  /**
   * The overview has an entry for every handler, in order, with the commands it
   * answers and its summary line; it is missing exactly when some handler's
   * docstring has no summary line.
   */
  lemma OverviewExactly(hs: seq<Handler>)
    ensures OverviewOf(hs).Some? ==> forall i :: 0 <= i < |hs| ==>
      Summary(hs[i].doc).Some? && OverviewOf(hs).value.entries[i] == HelpEntry(Tokens(hs[i].name), Summary(hs[i].doc).value)
    ensures OverviewOf(hs).None? <==> exists i :: 0 <= i < |hs| && Summary(hs[i].doc).None?
  {
    EntriesMissing(hs, Summary);
    if Entries(hs, Summary).Some? {
      EntriesContent(hs, Summary);
    }
  }

  /** The overview loop: one entry per handler, stopping at a docstring without a summary line. */
  method CollectEntries(hs: seq<Handler>, summarize: Option<string> -> Option<string>) returns (es: Option<seq<HelpEntry>>)
    ensures es == Entries(hs, summarize)
  {
    var entries: seq<HelpEntry> := [];
    var i := 0;
    while i < |hs|
      invariant 0 <= i <= |hs|
      invariant Entries(hs[..i], summarize) == Some(entries)
    {
      var summary := summarize(hs[i].doc);
      if summary.None? {
        EntriesStopAt(hs, summarize, i);
        return None;
      }
      assert hs[..i + 1][..i] == hs[..i];
      entries := entries + [HelpEntry(Tokens(hs[i].name), summary.value)];
      i := i + 1;
    }
    assert hs[..i] == hs;
    return Some(entries);
  }

  /** The overview /help gives without arguments, built by the loop above with Summary. */
  method BuildOverview(hs: seq<Handler>) returns (reply: Option<HelpReply>)
    ensures reply == OverviewOf(hs)
  {
    var es := CollectEntries(hs, Summary);
    match es {
      case None => return None;
      case Some(entries) => return Some(Overview(entries));
    }
  }

  /** The inner loop for one argument: the first handler answering it, once it is known to be valid. */
  method DocFor(hs: seq<Handler>, arg: string) returns (text: HelpReply)
    requires arg in AllTokens(hs)
    ensures text == HelpFor(hs, arg)
  {
    ValidIffAnswered(hs, arg);
    var k := 0;
    while k < |hs|
      invariant 0 <= k <= |hs|
      invariant forall j :: 0 <= j < k ==> arg !in Tokens(hs[j].name)
    {
      if arg in Tokens(hs[k].name) {
        return CommandDoc(arg, DocOrDefault(hs[k].doc));
      }
      k := k + 1;
    }
    assert false;
  }

  /**
   * handle_help_start. Without arguments: one overview entry per handler.
   * With arguments: each argument in turn overwrites the reply, so the last
   * one decides it. None means the handler raised before replying.
   */
  method HandleHelp(hs: seq<Handler>, args: seq<string>) returns (reply: Option<HelpReply>)
    ensures args == [] ==> reply == OverviewOf(hs)
    ensures args != [] ==> reply == Some(HelpFor(hs, args[|args| - 1]))
  {
    if args == [] {
      reply := BuildOverview(hs);
      return;
    }
    var text := Placeholder;
    var a := 0;
    while a < |args|
      invariant 0 <= a <= |args|
      invariant a > 0 ==> text == HelpFor(hs, args[a - 1])
    {
      var arg := args[a];
      ValidIffAnswered(hs, arg);
      if arg in AllTokens(hs) {
        text := DocFor(hs, arg);
      } else {
        text := NoSuchCommand;
      }
      a := a + 1;
    }
    return Some(text);
  }
}
