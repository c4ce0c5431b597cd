/** lib/markdown.ts: the thread export, and the reader that takes it apart again. */
module Markdown {
  import opened Wrappers
  import opened Text
  import opened Calendar
  import opened Discord

  // ---------------------------------------------------------------- printing

  function BoolText(b: bool): (s: string)
    ensures '\n' !in s
  {
    if b then "true" else "false"
  }

  function Take(s: string, n: nat): string {
    if |s| <= n then s else s[..n]
  }

  /** `s.replace(from, to)`: the first occurrence only. */
  function ReplaceFirst(s: string, from: char, to: char): (r: string)
    ensures |r| == |s|
  {
    if s == "" then ""
    else if s[0] == from then [to] + s[1..]
    else [s[0]] + ReplaceFirst(s[1..], from, to)
  }

  function StampText(createdAt: string): string {
    ReplaceFirst(Take(createdAt, 19), 'T', ' ')
  }

  function MessageLine(m: Message): string {
    "- " + StampText(m.createdAt) + " " + m.author.username + ": " + m.content
  }

  function LastActivityText(t: Thread): string {
    match t.lastActivityAt
    case Some(s) => s
    case None => "null"
  }

  function HeaderLines(t: Thread): (lines: seq<string>)
    ensures |lines| == 11
  {
    [
      "# " + t.name,
      "",
      "- thread_id: " + t.id,
      "- parent_id: " + t.parentId,
      "- thread_type: " + ThreadTypeText(t.threadType),
      "- archived: " + BoolText(t.archived),
      "- locked: " + BoolText(t.locked),
      "- last_activity_at: " + LastActivityText(t),
      "",
      "## Messages",
      ""
    ]
  }

  function MessageLines(messages: seq<Message>): (lines: seq<string>)
    ensures |lines| == |messages|
    ensures forall i | 0 <= i < |messages| :: lines[i] == MessageLine(messages[i])
  {
    seq(|messages|, i requires 0 <= i < |messages| => MessageLine(messages[i]))
  }

  function Lines(t: Thread, messages: seq<Message>): (lines: seq<string>)
    ensures |lines| == 11 + |messages|
  {
    HeaderLines(t) + MessageLines(messages)
  }

  function Export(t: Thread, messages: seq<Message>): string {
    Join(Lines(t, messages), "\n") + "\n"
  }

  /** `renderThreadMarkdownExport`: pushes one line per message and joins. */
  method RenderThreadMarkdownExport(t: Thread, messages: seq<Message>) returns (text: string)
    ensures text == Export(t, messages)
  {
    var lines := HeaderLines(t);
    for i := 0 to |messages|
      invariant lines == HeaderLines(t) + MessageLines(messages)[..i]
    {
      var timestamp := StampText(messages[i].createdAt);
      lines := lines + ["- " + timestamp + " " + messages[i].author.username + ": " + messages[i].content];
    }
    assert MessageLines(messages)[..|messages|] == MessageLines(messages);
    text := Join(lines, "\n") + "\n";
  }

  // ---------------------------------------------------------------- reading back

  datatype PrintedMessage = PrintedMessage(stamp: string, username: string, content: string)

  /** What an export shows of a thread and its messages. */
  datatype Printed = Printed(
    name: string,
    id: string,
    parentId: string,
    threadType: ThreadType,
    archived: bool,
    locked: bool,
    lastActivityAt: Option<string>,
    messages: seq<PrintedMessage>
  )

  function Shown(m: Message): PrintedMessage {
    PrintedMessage(StampText(m.createdAt), m.author.username, m.content)
  }

  function ShownMessages(messages: seq<Message>): (r: seq<PrintedMessage>)
    ensures |r| == |messages|
    ensures forall i | 0 <= i < |messages| :: r[i] == Shown(messages[i])
  {
    seq(|messages|, i requires 0 <= i < |messages| => Shown(messages[i]))
  }

  function PrintedOf(t: Thread, messages: seq<Message>): Printed {
    Printed(t.name, t.id, t.parentId, t.threadType, t.archived, t.locked, t.lastActivityAt, ShownMessages(messages))
  }

  /** What follows a heading. */
  function After(s: string, heading: string): string {
    if |heading| <= |s| then s[|heading|..] else ""
  }

  function ReadBool(s: string): bool {
    s == "true"
  }

  function ReadThreadType(s: string): ThreadType {
    if s == "PUBLIC_THREAD" then PublicThread else if s == "PRIVATE_THREAD" then PrivateThread else AnnouncementThread
  }

  function ReadOptional(s: string): Option<string> {
    if s == "null" then None else Some(s)
  }

  /** The position of the first colon followed by a space, or the length. */
  function FirstSeparator(s: string): (k: nat)
    ensures k <= |s|
  {
    if |s| < 2 then |s|
    else if s[0] == ':' && s[1] == ' ' then 0
    else 1 + FirstSeparator(s[1..])
  }

  predicate HasSeparator(s: string) {
    exists k | 0 <= k < |s| - 1 :: s[k] == ':' && s[k + 1] == ' '
  }

  /** Reads `- `, 19 characters of time, a space, the user name up to the first separator, the rest. */
  function ReadMessage(line: string): PrintedMessage {
    var body := if |line| >= 22 then line[22..] else "";
    var k := FirstSeparator(body);
    PrintedMessage(
      if |line| >= 21 then line[2..21] else "",
      body[..k],
      if k + 2 <= |body| then body[k + 2..] else "")
  }

  function ReadMessages(lines: seq<string>): (r: seq<PrintedMessage>)
    ensures |r| == |lines|
    ensures forall i | 0 <= i < |lines| :: r[i] == ReadMessage(lines[i])
  {
    seq(|lines|, i requires 0 <= i < |lines| => ReadMessage(lines[i]))
  }

  function ReadLines(lines: seq<string>): Printed
    requires |lines| >= 11
  {
    Printed(
      After(lines[0], "# "),
      After(lines[2], "- thread_id: "),
      After(lines[3], "- parent_id: "),
      ReadThreadType(After(lines[4], "- thread_type: ")),
      ReadBool(After(lines[5], "- archived: ")),
      ReadBool(After(lines[6], "- locked: ")),
      ReadOptional(After(lines[7], "- last_activity_at: ")),
      ReadMessages(lines[11..]))
  }

  /** Reads an export: its text up to the final line break is split into lines. */
  function ReadExport(text: string): Option<Printed> {
    var lines := Split(text, '\n');
    if |lines| < 12 then None else Some(ReadLines(lines[..|lines| - 1]))
  }

  // ---------------------------------------------------------------- the text written out

  /** Each line with the line break behind it. */
  function Each(lines: seq<string>): string {
    if lines == [] then "" else lines[0] + "\n" + Each(lines[1..])
  }

  lemma {:induction false} JoinIsEach(lines: seq<string>)
    requires lines != []
    ensures Join(lines, "\n") + "\n" == Each(lines)
  {
    if |lines| == 1 {
      assert Each(lines[1..]) == "";
    } else {
      JoinIsEach(lines[1..]);
    }
  }

  lemma {:induction false} EachAppend(a: seq<string>, b: seq<string>)
    ensures Each(a + b) == Each(a) + Each(b)
  {
    if a == [] {
      assert a + b == b;
    } else {
      assert (a + b)[1..] == a[1..] + b;
      EachAppend(a[1..], b);
    }
  }

  lemma EachFour(a: string, b: string, c: string, d: string)
    ensures Each([a, b, c, d]) == a + "\n" + b + "\n" + c + "\n" + d + "\n"
  {
    assert [a, b, c, d][1..] == [b, c, d] && [b, c, d][1..] == [c, d] && [c, d][1..] == [d] && [d][1..] == [];
    assert Each([d]) == d + "\n";
    assert Each([c, d]) == c + "\n" + Each([d]);
    assert Each([b, c, d]) == b + "\n" + Each([c, d]);
  }

  lemma EachThree(a: string, b: string, c: string)
    ensures Each([a, b, c]) == a + "\n" + b + "\n" + c + "\n"
  {
    assert [a, b, c][1..] == [b, c] && [b, c][1..] == [c] && [c][1..] == [];
    assert Each([c]) == c + "\n";
    assert Each([b, c]) == b + "\n" + Each([c]);
  }

  /** The messages, each on its line. */
  function MessageText(messages: seq<Message>): string {
    if messages == [] then ""
    else
      var m := messages[0];
      "- " + StampText(m.createdAt) + " " + m.author.username + ": " + m.content + "\n" + MessageText(messages[1..])
  }

  lemma {:induction false} EachMessage(messages: seq<Message>)
    ensures Each(MessageLines(messages)) == MessageText(messages)
  {
    if messages != [] {
      EachMessage(messages[1..]);
      assert MessageLines(messages)[1..] == MessageLines(messages[1..]);
      hide StampText;
    }
  }

  lemma EachEleven(h: seq<string>)
    requires |h| == 11
    ensures Each(h) ==
      (h[0] + "\n" + h[1] + "\n" + h[2] + "\n" + h[3] + "\n")
      + (h[4] + "\n" + h[5] + "\n" + h[6] + "\n" + h[7] + "\n")
      + (h[8] + "\n" + h[9] + "\n" + h[10] + "\n")
  {
    assert h == [h[0], h[1], h[2], h[3]] + [h[4], h[5], h[6], h[7]] + [h[8], h[9], h[10]];
    EachAppend([h[0], h[1], h[2], h[3]] + [h[4], h[5], h[6], h[7]], [h[8], h[9], h[10]]);
    EachAppend([h[0], h[1], h[2], h[3]], [h[4], h[5], h[6], h[7]]);
    EachFour(h[0], h[1], h[2], h[3]);
    EachFour(h[4], h[5], h[6], h[7]);
    EachThree(h[8], h[9], h[10]);
  }

  lemma ExportIsEach(t: Thread, messages: seq<Message>)
    ensures Export(t, messages) == Each(HeaderLines(t)) + MessageText(messages)
  {
    JoinIsEach(Lines(t, messages));
    EachAppend(HeaderLines(t), MessageLines(messages));
    EachMessage(messages);
  }

  /** The whole text of an export: every label with its value, and a line for each message in order. */
  lemma ExportText(t: Thread, messages: seq<Message>)
    ensures Export(t, messages) ==
      (("# " + t.name) + "\n" + "" + "\n" + ("- thread_id: " + t.id) + "\n" + ("- parent_id: " + t.parentId) + "\n")
      + (("- thread_type: "
          + (match t.threadType
             case PublicThread => "PUBLIC_THREAD"
             case PrivateThread => "PRIVATE_THREAD"
             case AnnouncementThread => "ANNOUNCEMENT_THREAD")) + "\n"
         + ("- archived: " + if t.archived then "true" else "false") + "\n"
         + ("- locked: " + if t.locked then "true" else "false") + "\n"
         + ("- last_activity_at: " + match t.lastActivityAt case Some(time) => time case None => "null") + "\n")
      + ("" + "\n" + "## Messages" + "\n" + "" + "\n")
      + MessageText(messages)
  {
    ExportIsEach(t, messages);
    EachEleven(HeaderLines(t));
    hide Export;
    hide Each;
    hide MessageText;
  }

  // ---------------------------------------------------------------- one line each

  /** No field that is printed as it stands breaks a line. */
  predicate OneLineEach(t: Thread, messages: seq<Message>) {
    && '\n' !in t.name && '\n' !in t.id && '\n' !in t.parentId && '\n' !in LastActivityText(t)
    && forall i | 0 <= i < |messages| :: '\n' !in messages[i].author.username && '\n' !in messages[i].content
  }

  /** The time of a message, as every ISO string has it: 19 characters or more and no line break. */
  predicate Stamped(m: Message) {
    |m.createdAt| >= 19 && '\n' !in m.createdAt
  }

  predicate AllStamped(messages: seq<Message>) {
    forall i | 0 <= i < |messages| :: Stamped(messages[i])
  }

  lemma {:induction false} ReplaceFirstAdds(s: string, from: char, to: char)
    ensures forall c | c in ReplaceFirst(s, from, to) :: c == to || c in s
  {
    if s != "" && s[0] != from {
      ReplaceFirstAdds(s[1..], from, to);
    }
  }

  lemma StampIsOneLine(m: Message)
    requires Stamped(m)
    ensures |StampText(m.createdAt)| == 19 && '\n' !in StampText(m.createdAt)
  {
    ReplaceFirstAdds(Take(m.createdAt, 19), 'T', ' ');
  }

  lemma MessageLineBreaks(m: Message)
    requires Stamped(m)
    ensures '\n' !in MessageLine(m) <==> '\n' !in m.author.username && '\n' !in m.content
  {
    StampIsOneLine(m);
    hide StampText;
  }

  lemma HeaderBreaks(t: Thread)
    ensures FreeOf(HeaderLines(t), '\n')
       <==> '\n' !in t.name && '\n' !in t.id && '\n' !in t.parentId && '\n' !in LastActivityText(t)
  {
    hide LastActivityText;
    hide ThreadTypeText;
    hide BoolText;
    var lines := HeaderLines(t);
    assert '\n' in lines[0] <==> '\n' in t.name;
    assert '\n' in lines[2] <==> '\n' in t.id;
    assert '\n' in lines[3] <==> '\n' in t.parentId;
    assert '\n' in lines[7] <==> '\n' in LastActivityText(t);
    assert '\n' !in lines[1] && '\n' !in lines[4] && '\n' !in lines[5] && '\n' !in lines[6];
    assert '\n' !in lines[8] && '\n' !in lines[9] && '\n' !in lines[10];
  }

  lemma MessageLinesAreFree(messages: seq<Message>)
    requires AllStamped(messages)
    ensures FreeOf(MessageLines(messages), '\n') <==>
      forall i | 0 <= i < |messages| :: '\n' !in messages[i].author.username && '\n' !in messages[i].content
  {
    hide MessageLine;
    var lines := MessageLines(messages);
    forall i | 0 <= i < |messages|
      ensures '\n' !in lines[i] <==> '\n' !in messages[i].author.username && '\n' !in messages[i].content
    {
      MessageLineBreaks(messages[i]);
    }
    if FreeOf(lines, '\n') {
      forall i | 0 <= i < |messages|
        ensures '\n' !in messages[i].author.username && '\n' !in messages[i].content
      {
        assert '\n' !in lines[i];
      }
    }
  }

  lemma LinesAreFree(t: Thread, messages: seq<Message>)
    requires AllStamped(messages)
    ensures FreeOf(Lines(t, messages), '\n') <==> OneLineEach(t, messages)
  {
    hide HeaderLines;
    hide MessageLines;
    hide LastActivityText;
    hide FreeOf;
    HeaderBreaks(t);
    MessageLinesAreFree(messages);
    FreeParts(HeaderLines(t), MessageLines(messages));
  }

  lemma FreeParts(a: seq<string>, b: seq<string>)
    ensures FreeOf(a + b, '\n') <==> FreeOf(a, '\n') && FreeOf(b, '\n')
  {
    if FreeOf(a + b, '\n') {
      forall i | 0 <= i < |a| ensures '\n' !in a[i] { assert (a + b)[i] == a[i]; }
      forall i | 0 <= i < |b| ensures '\n' !in b[i] { assert (a + b)[|a| + i] == b[i]; }
    }
  }

  /** Line breaks inside a list of texts. */
  function Breaks(lines: seq<string>): nat {
    if lines == [] then 0 else Count(lines[0], '\n') + Breaks(lines[1..])
  }

  lemma {:induction false} NoBreaks(lines: seq<string>)
    ensures Breaks(lines) == 0 <==> FreeOf(lines, '\n')
  {
    if lines != [] {
      CountFree(lines[0], '\n');
      NoBreaks(lines[1..]);
      FreeParts([lines[0]], lines[1..]);
      assert [lines[0]] + lines[1..] == lines;
    }
  }

  lemma {:induction false} SplitJoined(lines: seq<string>)
    requires |lines| >= 1
    ensures |Split(Join(lines, "\n"), '\n')| == |lines| + Breaks(lines)
  {
    SplitCount(lines[0], '\n');
    if |lines| == 1 {
      assert Breaks(lines[1..]) == 0;
    } else {
      SplitJoined(lines[1..]);
      SplitAppend(lines[0], '\n', Join(lines[1..], "\n"));
    }
  }

  lemma SplitExport(t: Thread, messages: seq<Message>)
    ensures Split(Export(t, messages), '\n') == Split(Join(Lines(t, messages), "\n"), '\n') + [""]
  {
    var text := Join(Lines(t, messages), "\n");
    SplitAppend(text, '\n', "");
    assert text + ['\n'] + "" == text + "\n";
  }

  /**
   * An export has 11 header lines, one line per message and one more line for every line break
   * inside a printed field; so it has exactly 11 and one per message when no field breaks a line.
   */
  lemma ExportLineCount(t: Thread, messages: seq<Message>)
    requires AllStamped(messages)
    ensures |Split(Export(t, messages), '\n')| - 1 == 11 + |messages| + Breaks(Lines(t, messages))
    ensures |Split(Export(t, messages), '\n')| - 1 == 11 + |messages| <==> OneLineEach(t, messages)
  {
    SplitExport(t, messages);
    SplitJoined(Lines(t, messages));
    NoBreaks(Lines(t, messages));
    LinesAreFree(t, messages);
  }

  // ---------------------------------------------------------------- reading undoes printing

  lemma {:induction false} SeparatorAfter(u: string, rest: string)
    ensures !HasSeparator(u) ==> FirstSeparator(u + ": " + rest) == |u|
    ensures HasSeparator(u) ==> FirstSeparator(u + ": " + rest) < |u|
  {
    var whole := u + ": " + rest;
    if u == "" {
      assert whole[0] == ':' && whole[1] == ' ';
    } else {
      assert whole[1..] == u[1..] + ": " + rest;
      SeparatorAfter(u[1..], rest);
      if HasSeparator(u) {
        var k :| 0 <= k < |u| - 1 && u[k] == ':' && u[k + 1] == ' ';
        if k > 0 {
          assert u[1..][k - 1] == ':' && u[1..][k] == ' ';
        }
      } else {
        if |u| > 1 {
          assert !(u[0] == ':' && u[0 + 1] == ' ');
        }
        forall k | 0 <= k < |u[1..]| - 1 ensures !(u[1..][k] == ':' && u[1..][k + 1] == ' ') {
          assert !(u[k + 1] == ':' && u[k + 1 + 1] == ' ');
        }
      }
    }
  }

  lemma ReadMessageLine(m: Message)
    requires Stamped(m)
    ensures ReadMessage(MessageLine(m)) == Shown(m) <==> !HasSeparator(m.author.username)
  {
    StampIsOneLine(m);
    var stamp, u, c := StampText(m.createdAt), m.author.username, m.content;
    hide StampText;
    hide HasSeparator;
    var line := MessageLine(m);
    assert line[2..21] == stamp;
    assert line[22..] == u + ": " + c;
    SeparatorAfter(u, c);
    if !HasSeparator(u) {
      assert (u + ": " + c)[..|u|] == u;
      assert (u + ": " + c)[|u| + 2..] == c;
    }
  }

  lemma LabelRead(heading: string, s: string)
    ensures After(heading + s, heading) == s
  {
  }

  lemma EnumsReadBack(t: ThreadType, b: bool)
    ensures ReadThreadType(ThreadTypeText(t)) == t && ReadBool(BoolText(b)) == b
  {
    assert ThreadTypeText(PrivateThread)[1] == 'R' && ThreadTypeText(PublicThread)[1] == 'U';
    assert ThreadTypeText(AnnouncementThread)[0] == 'A';
    assert BoolText(false)[0] == 'f';
  }

  lemma HeaderReadsBack(t: Thread, messages: seq<Message>)
    ensures var p := ReadLines(Lines(t, messages));
      && p.name == t.name && p.id == t.id && p.parentId == t.parentId && p.threadType == t.threadType
      && p.archived == t.archived && p.locked == t.locked
      && p.lastActivityAt == ReadOptional(LastActivityText(t))
      && p.messages == ReadMessages(MessageLines(messages))
  {
    var lines, header := Lines(t, messages), HeaderLines(t);
    assert lines[11..] == MessageLines(messages);
    assert forall i | 0 <= i < 11 :: lines[i] == header[i];
    hide After;
    hide ReadOptional;
    hide ReadThreadType;
    hide ReadBool;
    hide LastActivityText;
    hide ThreadTypeText;
    hide BoolText;
    hide ReadMessages;
    LabelRead("# ", t.name);
    LabelRead("- thread_id: ", t.id);
    LabelRead("- parent_id: ", t.parentId);
    LabelRead("- thread_type: ", ThreadTypeText(t.threadType));
    LabelRead("- archived: ", BoolText(t.archived));
    LabelRead("- locked: ", BoolText(t.locked));
    LabelRead("- last_activity_at: ", LastActivityText(t));
    EnumsReadBack(t.threadType, t.archived);
    EnumsReadBack(t.threadType, t.locked);
  }

  /** What a caller can check of the fields: one line each, no separator in a user name, no time called null. */
  predicate Readable(t: Thread, messages: seq<Message>) {
    && OneLineEach(t, messages)
    && t.lastActivityAt != Some("null")
    && forall i | 0 <= i < |messages| :: !HasSeparator(messages[i].author.username)
  }

  lemma MessagesReadBack(messages: seq<Message>)
    requires AllStamped(messages)
    ensures ReadMessages(MessageLines(messages)) == ShownMessages(messages)
       <==> forall i | 0 <= i < |messages| :: !HasSeparator(messages[i].author.username)
  {
    hide ReadMessage;
    hide MessageLine;
    hide Shown;
    hide HasSeparator;
    var read, shown := ReadMessages(MessageLines(messages)), ShownMessages(messages);
    forall i | 0 <= i < |messages| ensures read[i] == shown[i] <==> !HasSeparator(messages[i].author.username) {
      ReadMessageLine(messages[i]);
    }
    if read == shown {
      forall i | 0 <= i < |messages| ensures !HasSeparator(messages[i].author.username) {
        assert read[i] == shown[i];
      }
    }
  }

  /** This reader gives back everything an export shows, in order, exactly when the fields are readable. */
  lemma ExportRoundTrip(t: Thread, messages: seq<Message>)
    requires AllStamped(messages)
    ensures ReadExport(Export(t, messages)) == Some(PrintedOf(t, messages)) <==> Readable(t, messages)
  {
    hide ReadLines;
    hide Export;
    hide ReadMessages;
    hide HasSeparator;
    hide LastActivityText;
    var lines := Lines(t, messages);
    var pieces := Split(Export(t, messages), '\n');
    ExportLineCount(t, messages);
    SplitExport(t, messages);
    if OneLineEach(t, messages) {
      LinesAreFree(t, messages);
      SplitJoin(lines, '\n');
      assert pieces[..|pieces| - 1] == lines;
      HeaderReadsBack(t, messages);
      MessagesReadBack(messages);
      LastActivityReadsBack(t);
    } else {
      ReadCount(pieces[..|pieces| - 1]);
    }
  }

  lemma ReadCount(lines: seq<string>)
    requires |lines| >= 11
    ensures |ReadLines(lines).messages| == |lines| - 11
  {
  }

  lemma LastActivityReadsBack(t: Thread)
    ensures ReadOptional(LastActivityText(t)) == t.lastActivityAt <==> t.lastActivityAt != Some("null")
  {
  }

  // ---------------------------------------------------------------- different exports with one text

  /** A line break in a message can imitate a second message, of any author and time. */
  lemma LineBreakImitatesMessage(t: Thread, a: Message, b: Message, content: string)
    ensures Export(t, [a.(content := content + "\n" + MessageLine(b))]) == Export(t, [a.(content := content), b])
  {
    hide HeaderLines;
    hide StampText;
    var header := HeaderLines(t);
    var first := a.(content := content);
    var forged := a.(content := content + "\n" + MessageLine(b));
    LineGrows("- " + StampText(a.createdAt) + " " + a.author.username + ": ", content, MessageLine(b));
    assert MessageLine(forged) == MessageLine(first) + "\n" + MessageLine(b);
    assert MessageLines([forged]) == [MessageLine(forged)];
    assert MessageLines([first, b]) == [MessageLine(first), MessageLine(b)];
    hide MessageLine;
    JoinAppend(header, [MessageLine(forged)]);
    JoinAppend(header, [MessageLine(first), MessageLine(b)]);
    JoinCons(MessageLine(first), [MessageLine(b)], "\n");
    assert [MessageLine(first)] + [MessageLine(b)] == [MessageLine(first), MessageLine(b)];
  }

  lemma LineGrows(front: string, content: string, line: string)
    ensures front + (content + "\n" + line) == front + content + "\n" + line
  {
  }

  /** A user name that holds a colon and a space prints as a shorter name with a longer content. */
  lemma SeparatorImitatesContent(t: Thread, m: Message, u: string, v: string, content: string)
    ensures var long, short := m.author.(username := u + ": " + v), m.author.(username := u);
      Export(t, [m.(author := long, content := content)]) == Export(t, [m.(author := short, content := v + ": " + content)])
  {
    hide HeaderLines;
    hide StampText;
    hide Join;
    var a := m.(author := m.author.(username := u + ": " + v), content := content);
    var b := m.(author := m.author.(username := u), content := v + ": " + content);
    SeparatorMoves("- " + StampText(m.createdAt) + " ", u, v, content);
    assert MessageLine(a) == MessageLine(b);
    assert MessageLines([a]) == MessageLines([b]);
  }

  lemma SeparatorMoves(front: string, u: string, v: string, content: string)
    ensures front + (u + ": " + v) + ": " + content == front + u + ": " + (v + ": " + content)
  {
  }

  /** An activity time called null prints as none does. */
  lemma NullImitatesNone(t: Thread, messages: seq<Message>)
    ensures Export(t.(lastActivityAt := Some("null")), messages) == Export(t.(lastActivityAt := None), messages)
  {
  }

  /** Two threads print the same header. */
  predicate SameHeader(t: Thread, u: Thread) {
    && t.name == u.name && t.id == u.id && t.parentId == u.parentId && t.threadType == u.threadType
    && t.archived == u.archived && t.locked == u.locked
    && (t.lastActivityAt == u.lastActivityAt || {t.lastActivityAt, u.lastActivityAt} == {None, Some("null")})
  }

  lemma HeadersAgreeIff(t: Thread, u: Thread)
    ensures HeaderLines(t) == HeaderLines(u) <==> SameHeader(t, u)
  {
    EnumsReadBack(t.threadType, t.archived);
    EnumsReadBack(u.threadType, u.archived);
    EnumsReadBack(t.threadType, t.locked);
    EnumsReadBack(u.threadType, u.locked);
    ActivityTextsAgreeIff(t, u);
    SameFront("# ", t.name, u.name);
    SameFront("- thread_id: ", t.id, u.id);
    SameFront("- parent_id: ", t.parentId, u.parentId);
    SameFront("- thread_type: ", ThreadTypeText(t.threadType), ThreadTypeText(u.threadType));
    SameFront("- archived: ", BoolText(t.archived), BoolText(u.archived));
    SameFront("- locked: ", BoolText(t.locked), BoolText(u.locked));
    SameFront("- last_activity_at: ", LastActivityText(t), LastActivityText(u));
    hide LastActivityText;
    hide ThreadTypeText;
    hide BoolText;
    hide ReadBool;
    hide ReadThreadType;
    var a, b := HeaderLines(t), HeaderLines(u);
    assert a == b <==> forall i | 0 <= i < 11 :: a[i] == b[i];
    if a == b {
      assert a[0] == b[0] && a[2] == b[2] && a[3] == b[3] && a[4] == b[4] && a[5] == b[5] && a[6] == b[6] && a[7] == b[7];
    }
  }

  lemma ActivityTextsAgreeIff(t: Thread, u: Thread)
    ensures LastActivityText(t) == LastActivityText(u)
       <==> t.lastActivityAt == u.lastActivityAt || {t.lastActivityAt, u.lastActivityAt} == {None, Some("null")}
  {
    var a, b := t.lastActivityAt, u.lastActivityAt;
    var pair := {None, Some("null")};
    assert a in {a, b} && b in {a, b} && None in pair && Some("null") in pair;
  }

  /** Two messages print the same line. */
  predicate SameLine(m: Message, n: Message) {
    StampText(m.createdAt) == StampText(n.createdAt)
    && m.author.username + ": " + m.content == n.author.username + ": " + n.content
  }

  lemma LinesAgreeIff(m: Message, n: Message)
    requires Stamped(m) && Stamped(n)
    ensures MessageLine(m) == MessageLine(n) <==> SameLine(m, n)
  {
    StampIsOneLine(m);
    StampIsOneLine(n);
    hide StampText;
    var a, b := MessageLine(m), MessageLine(n);
    assert a[2..21] == StampText(m.createdAt) && b[2..21] == StampText(n.createdAt);
    assert a[22..] == m.author.username + ": " + m.content && b[22..] == n.author.username + ": " + n.content;
    if SameLine(m, n) {
      assert a == "- " + StampText(m.createdAt) + " " + a[22..];
      assert b == "- " + StampText(n.createdAt) + " " + b[22..];
    }
  }

  /** Two lists of messages print the same lines. */
  predicate SameLines(ms: seq<Message>, ns: seq<Message>) {
    |ms| == |ns| && forall i | 0 <= i < |ms| :: SameLine(ms[i], ns[i])
  }

  lemma MessageLinesAgreeIff(ms: seq<Message>, ns: seq<Message>)
    requires AllStamped(ms) && AllStamped(ns)
    ensures MessageLines(ms) == MessageLines(ns) <==> SameLines(ms, ns)
  {
    hide MessageLine;
    hide SameLine;
    hide Stamped;
    var a, b := MessageLines(ms), MessageLines(ns);
    if |ms| == |ns| {
      forall i | 0 <= i < |ms| ensures a[i] == b[i] <==> SameLine(ms[i], ns[i]) {
        LinesAgreeIff(ms[i], ns[i]);
      }
      assert a == b <==> forall i | 0 <= i < |ms| :: a[i] == b[i];
    }
  }

  /**
   * Without any reader: exports of fields that break no line are one text exactly when the headers show the
   * same, there are as many messages, and each shows the same time and the same user name and content put
   * together.
   */
  lemma ExportsAgreeIff(t: Thread, ms: seq<Message>, u: Thread, ns: seq<Message>)
    requires AllStamped(ms) && AllStamped(ns) && OneLineEach(t, ms) && OneLineEach(u, ns)
    ensures Export(t, ms) == Export(u, ns) <==> SameHeader(t, u) && SameLines(ms, ns)
  {
    LinesAreFree(t, ms);
    LinesAreFree(u, ns);
    HeadersAgreeIff(t, u);
    MessageLinesAgreeIff(ms, ns);
    hide OneLineEach;
    hide AllStamped;
    hide HeaderLines;
    hide MessageLines;
    hide SameHeader;
    hide SameLines;
    hide FreeOf;
    var a, b := Lines(t, ms), Lines(u, ns);
    SplitJoin(a, '\n');
    SplitJoin(b, '\n');
    SameBack(Join(a, "\n"), Join(b, "\n"), "\n");
    assert a[..11] == HeaderLines(t) && b[..11] == HeaderLines(u);
    assert a[11..] == MessageLines(ms) && b[11..] == MessageLines(ns);
  }

  lemma {:induction false} JoinAppend(a: seq<string>, b: seq<string>)
    requires |a| >= 1 && |b| >= 1
    ensures Join(a + b, "\n") == Join(a, "\n") + "\n" + Join(b, "\n")
  {
    if |a| == 1 {
      assert (a + b)[1..] == b;
    } else {
      JoinAppend(a[1..], b);
      assert (a + b)[1..] == a[1..] + b;
    }
  }

  // ---------------------------------------------------------------- the time shown

  lemma {:induction false} ReplaceAt(s: string, k: nat, from: char, to: char)
    requires k < |s| && s[k] == from && from !in s[..k]
    ensures ReplaceFirst(s, from, to) == s[..k] + [to] + s[k + 1..]
  {
    if k > 0 {
      assert s[0] in s[..k];
      assert s[1..][..k - 1] == s[..k][1..];
      ReplaceAt(s[1..], k - 1, from, to);
    }
  }

  /** The time a shown stamp denotes: put the T back and read it. */
  function ShownSeconds(stamp: string): Option<int> {
    if |stamp| == 19 && HasStamp(stamp[..10] + "T" + stamp[11..])
    then Some(StampSeconds(stamp[..10] + "T" + stamp[11..]))
    else None
  }

  lemma StampTextOf(s: string)
    requires HasStamp(s)
    ensures StampText(s) == s[..10] + " " + s[11..19]
  {
    var taken := Take(s, 19);
    assert taken == s[..19];
    forall i | 0 <= i < 10 ensures taken[i] != 'T' {
      assert IsDigit(taken[i]) || taken[i] == '-';
    }
    hide HasStamp;
    ReplaceAt(taken, 10, 'T', ' ');
  }

  lemma StampPrefix(s: string)
    requires HasStamp(s)
    ensures HasStamp(s[..19]) && StampSeconds(s[..19]) == StampSeconds(s)
  {
    hide DayOfCivil;
    assert StampDate(s[..19]) == StampDate(s);
    assert StampClock(s[..19]) == StampClock(s);
  }

  /** The line shows the time to the second exactly in the four-digit years. */
  lemma StampShowsSecond(ms: Instant)
    ensures ShownSeconds(StampText(IsoString(ms))) == Some(ms / 1000) <==> FourDigitYear(ms)
  {
    hide IsoString;
    hide FourDigitYear;
    if FourDigitYear(ms) {
      ShortStampShowsSecond(ms);
    } else {
      LongIsoStartsWithSign(ms);
      SignedStampShowsNone(IsoString(ms));
    }
  }

  lemma SignedStampShowsNone(s: string)
    requires |s| >= 19 && s[0] in {'+', '-'}
    ensures ShownSeconds(StampText(s)).None?
  {
    hide DayOfCivil;
    assert StampText(s)[0] == s[0];
  }

  lemma ShortStampShowsSecond(ms: Instant)
    requires FourDigitYear(ms)
    ensures ShownSeconds(StampText(IsoString(ms))) == Some(ms / 1000)
  {
    var s := IsoString(ms);
    IsoIsOneLine(ms);
    StampOfInstant(ms);
    assert s[10] == 'T';
    hide IsoString;
    hide HasStamp;
    hide StampSeconds;
    hide ShownSeconds;
    hide StampText;
    StampTextOf(s);
    StampPrefix(s);
    PutBack(s);
  }

  lemma PutBack(s: string)
    requires |s| >= 19 && s[10] == 'T' && HasStamp(s[..19])
    ensures ShownSeconds(s[..10] + " " + s[11..19]) == Some(StampSeconds(s[..19]))
  {
    hide HasStamp;
    hide StampSeconds;
    var stamp := s[..10] + " " + s[11..19];
    assert stamp[..10] + "T" + stamp[11..] == s[..19];
  }
}
