/** The bounded log of recent control actions (`bot.command_history_list`, a deque
    with maxlen 5) and its rendering into the history message. */
module CommandHistory {
  import opened BotTypes

  datatype HistoryEntry = HistoryEntry(command: string, user: string, timestamp: string)

  /** The newest `MaxCommandHistory` entries of `s`, in order. */
  function Newest(s: seq<HistoryEntry>): seq<HistoryEntry> {
    if |s| <= MaxCommandHistory then s else s[|s| - MaxCommandHistory..]
  }

  /** `deque.append` on a deque with maxlen 5: when full, the oldest entry is dropped. */
  function Append(h: seq<HistoryEntry>, e: HistoryEntry): (r: seq<HistoryEntry>)
    requires |h| <= MaxCommandHistory
    ensures |r| <= MaxCommandHistory
    ensures r == Newest(h + [e])
  {
    if |h| < MaxCommandHistory then h + [e] else h[1..] + [e]
  }

  /** Appending the entries of `es` one after the other. */
  function AppendAll(h: seq<HistoryEntry>, es: seq<HistoryEntry>): (r: seq<HistoryEntry>)
    requires |h| <= MaxCommandHistory
    ensures |r| <= MaxCommandHistory
    decreases |es|
  {
    if |es| == 0 then h else Append(AppendAll(h, es[..|es| - 1]), es[|es| - 1])
  }

  lemma NewestOfNewest(s: seq<HistoryEntry>, e: HistoryEntry)
    ensures Newest(Newest(s) + [e]) == Newest(s + [e])
  {
    if |s| > MaxCommandHistory {
      assert (s + [e])[|s| + 1 - MaxCommandHistory..] == s[|s| + 1 - MaxCommandHistory..] + [e];
      assert Newest(s)[1..] == s[|s| + 1 - MaxCommandHistory..];
    }
  }

  /** One more append, in terms of the entries appended before it. */
  lemma AppendAllLast(h: seq<HistoryEntry>, es: seq<HistoryEntry>)
    requires |h| <= MaxCommandHistory && |es| > 0
    ensures AppendAll(h, es) == Newest(AppendAll(h, es[..|es| - 1]) + [es[|es| - 1]])
  {
  }

  /** However many entries are appended, the history holds exactly the newest five of
      everything appended so far, oldest first. */
  lemma {:induction false} AppendAllKeepsNewest(h: seq<HistoryEntry>, es: seq<HistoryEntry>)
    requires |h| <= MaxCommandHistory
    ensures AppendAll(h, es) == Newest(h + es)
    decreases |es|
  {
    if |es| > 0 {
      var init := es[..|es| - 1];
      var e := es[|es| - 1];
      AppendAllLast(h, es);
      assert es == init + [e];
      assert h + es == (h + init) + [e];
      AppendAllKeepsNewest(h, init);
      NewestOfNewest(h + init, e);
    }
  }

  /** Six appends to an empty history: the first entry is gone, the other five remain in order. */
  lemma SixthAppendEvictsFirst(e1: HistoryEntry, e2: HistoryEntry, e3: HistoryEntry,
                               e4: HistoryEntry, e5: HistoryEntry, e6: HistoryEntry)
    ensures AppendAll([], [e1, e2, e3, e4, e5, e6]) == [e2, e3, e4, e5, e6]
  {
    AppendAllKeepsNewest([], [e1, e2, e3, e4, e5, e6]);
  }

  // ----- Rendering -----

  const HistoryHeader: string := "**Recent Activity:**"
  const NoActivity: string := "No activity yet."

  /** One line of the history message. */
  function EntryLine(e: HistoryEntry): string {
    "- `" + e.command + "` by " + e.user + " at " + e.timestamp
  }

  function EntryLines(h: seq<HistoryEntry>): (r: seq<string>)
    ensures |r| == |h| && forall i :: 0 <= i < |h| ==> r[i] == EntryLine(h[i])
  {
    seq(|h|, i requires 0 <= i < |h| => EntryLine(h[i]))
  }

  /** `"\n".join(lines)`. */
  function JoinLines(lines: seq<string>): string
    decreases |lines|
  {
    if |lines| == 0 then ""
    else if |lines| == 1 then lines[0]
    else lines[0] + "\n" + JoinLines(lines[1..])
  }

  /** The history message's content. */
  function RenderHistory(h: seq<HistoryEntry>): (r: string)
    // Read line by line, the message is the header and then either the notice or one
    // line per entry in history order (entries whose fields hold no line break).
    ensures (forall i :: 0 <= i < |h| ==> SingleLine(h[i])) ==>
      SplitLines(r) == [HistoryHeader] + (if |h| == 0 then [NoActivity] else EntryLines(h))
  {
    HistoryBodySplits(h);
    HistoryHeader + "\n" + (if |h| == 0 then NoActivity else JoinLines(EntryLines(h)))
  }

  /** `s.split("\n")`: the independent reading of a rendered message, line by line. */
  function SplitLines(s: string): (r: seq<string>)
    ensures |r| > 0
    decreases |s|
  {
    if |s| == 0 then [""]
    else
      var rest := SplitLines(s[1..]);
      if s[0] == '\n' then [""] + rest else [[s[0]] + rest[0]] + rest[1..]
  }

  /** Text without a line break extends the first line of whatever follows it. */
  lemma {:induction false} SplitLinesPrefix(a: string, s: string)
    requires '\n' !in a
    ensures SplitLines(a + s) == [a + SplitLines(s)[0]] + SplitLines(s)[1..]
    decreases |a|
  {
    if |a| > 0 {
      SplitLinesPrefix(a[1..], s);
      assert (a + s)[1..] == a[1..] + s;
      assert [a[0]] + (a[1..] + SplitLines(s)[0]) == a + SplitLines(s)[0];
    } else {
      assert a + s == s;
      assert a + SplitLines(s)[0] == SplitLines(s)[0];
      assert SplitLines(s) == [SplitLines(s)[0]] + SplitLines(s)[1..];
    }
  }

  /** Splitting undoes joining, as long as no line holds a line break. */
  lemma {:induction false} SplitJoin(lines: seq<string>)
    requires |lines| > 0
    requires forall i :: 0 <= i < |lines| ==> '\n' !in lines[i]
    ensures SplitLines(JoinLines(lines)) == lines
    decreases |lines|
  {
    if |lines| == 1 {
      SplitLinesPrefix(lines[0], "");
      assert lines[0] + "" == lines[0];
    } else {
      var tail := JoinLines(lines[1..]);
      SplitJoin(lines[1..]);
      SplitLinesPrefix(lines[0], "\n" + tail);
      assert lines[0] + "\n" + tail == lines[0] + ("\n" + tail);
      assert ("\n" + tail)[1..] == tail;
      assert SplitLines("\n" + tail) == [""] + lines[1..];
      assert lines[0] + "" == lines[0];
      assert [lines[0]] + lines[1..] == lines;
    }
  }

  /** An entry whose fields are single-line text renders as one line. */
  predicate SingleLine(e: HistoryEntry) {
    '\n' !in e.command && '\n' !in e.user && '\n' !in e.timestamp
  }

  lemma EntryLineSingle(e: HistoryEntry)
    requires SingleLine(e)
    ensures '\n' !in EntryLine(e)
  {
  }

  /** A single-line title, a line break, and joined single-line body lines split back into
      the title followed by the body lines. */
  lemma {:induction false} SplitTitled(title: string, bodyLines: seq<string>)
    requires '\n' !in title && |bodyLines| > 0
    requires forall i :: 0 <= i < |bodyLines| ==> '\n' !in bodyLines[i]
    ensures SplitLines(title + "\n" + JoinLines(bodyLines)) == [title] + bodyLines
  {
    var body := JoinLines(bodyLines);
    SplitJoin(bodyLines);
    SplitLinesPrefix(title, "\n" + body);
    assert title + "\n" + body == title + ("\n" + body);
    assert ("\n" + body)[1..] == body;
    assert SplitLines("\n" + body) == [""] + bodyLines;
    assert title + "" == title;
  }

  /** The body of the history message, under its header, splits back into the notice or
      into one line per entry. */
  lemma HistoryBodySplits(h: seq<HistoryEntry>)
    ensures (forall i :: 0 <= i < |h| ==> SingleLine(h[i])) ==>
      SplitLines(HistoryHeader + "\n" + (if |h| == 0 then NoActivity else JoinLines(EntryLines(h)))) ==
      [HistoryHeader] + (if |h| == 0 then [NoActivity] else EntryLines(h))
  {
    if forall i :: 0 <= i < |h| ==> SingleLine(h[i]) {
      var bodyLines := if |h| == 0 then [NoActivity] else EntryLines(h);
      assert '\n' !in HistoryHeader && '\n' !in NoActivity;
      forall i | 0 <= i < |bodyLines| ensures '\n' !in bodyLines[i] {
        if |h| > 0 {
          EntryLineSingle(h[i]);
        }
      }
      assert JoinLines([NoActivity]) == NoActivity;
      SplitTitled(HistoryHeader, bodyLines);
    }
  }

}
