/**
 * The reply texts of the bot (messages.py): the fixed replies, the
 * one-placeholder templates, and the rendering of quotes fetched from the
 * quotes service.
 */
module Messages {
  import opened Text

  /** A person as the quotes service returns one: first and last name. */
  datatype Person = Person(firstName: string, lastName: string)

  /** A quote record; `brain` is already the integer the source obtains with `int(...)`. */
  datatype Quote = Quote(text: string, quotedPersons: seq<Person>, brain: int, quoter: Person, date: string)

  const QuotesFoundSuffix := " quotes found"
  const PersonSeparator := ", "
  const QuoteOfTheDayHeader := "The quote of the day!"
  const AlreadySubscribedPrefix := "You are already subscribed " + "to the quote of the day at "
  const SubscriptionRemovedPrefix := "Your subscription for "
  const SubscriptionRemovedSuffix := " was removed."
  const SubscriptionSuccessfulPrefix := "You will receive " + "the quote of the day every day at "

  const ErrorOccurred := "An error occurred. " + "This problem will be automatically reported to the administrator."
  const NoTimeArgument := "Please specify the time at which " + "you want to be notified.\n" + "Example: /subscribe 01:00"
  const IncorrectTimeFormat := "Incorrect time format. " + "Please provide a time formatted like hh:mm."
  const InvalidHour := "The hour has to be between 00 and 23."
  const InvalidMinute := "The minute has to be between 00 and 59."
  const NotSubscribed := "You are not subscribed " + "to the quote of the day."

  // ---------------------------------------------------------------- counts

  /** `format_quotes_found`: the count in decimal, or the word "No" for zero. */
  function QuotesFound(count: int): string
  {
    (if count == 0 then "No" else IntToString(count)) + QuotesFoundSuffix
  }

  /**
   * A reader can get the count back from the message: it ends in
   * " quotes found", what stands before is "No" exactly when the count is
   * zero, and otherwise it is the count written in decimal.
   */
  lemma QuotesFoundDecodes(count: int)
    ensures var m := QuotesFound(count);
      |m| >= |QuotesFoundSuffix| && m[|m| - |QuotesFoundSuffix|..] == QuotesFoundSuffix &&
      var head := m[..|m| - |QuotesFoundSuffix|];
      (head == "No" <==> count == 0) &&
      (count != 0 ==> IsIntLiteral(head) && ParseInt(head) == count)
  {
    var m := QuotesFound(count);
    var head := if count == 0 then "No" else IntToString(count);
    assert m == head + QuotesFoundSuffix;
    assert m[..|m| - |QuotesFoundSuffix|] == head;
    assert m[|m| - |QuotesFoundSuffix|..] == QuotesFoundSuffix;
    if count != 0 {
      IntToStringRoundTrip(count);
      assert head[0] == 'N' ==> !IsIntLiteral(head);
    }
  }

  // ---------------------------------------------------------------- quotes

  /** `f"{firstName} {lastName}"`. */
  function FullName(p: Person): (r: string)
    ensures |r| == |p.firstName| + 1 + |p.lastName| && r[|p.firstName|] == ' '
  {
    p.firstName + " " + p.lastName
  }

  function FullNames(persons: seq<Person>): (names: seq<string>)
    ensures |names| == |persons|
    ensures forall i :: 0 <= i < |persons| ==> names[i] == FullName(persons[i])
  {
    seq(|persons|, i requires 0 <= i < |persons| => FullName(persons[i]))
  }

  /** The quoted-persons field of a quote: the full names, in order, separated by ", ". */
  function QuotedPersonsText(persons: seq<Person>): string
  {
    Join(FullNames(persons), PersonSeparator)
  }

  /** The date field of a quote: "YYYY-MM-DD" becomes "YYYY/MM/DD". */
  function DateText(date: string): string
  {
    ReplaceChar(date, '-', '/')
  }

  /** What `format_quote` renders: `QUOTE_TEMPLATE` read line by line. */
  function QuoteText(q: Quote): string
  {
    TextLine(q) + "\n" + PersonsLine(q) + "\n" + BrainLine(q) + "\n" + SubmittedLine(q)
  }

  function TextLine(q: Quote): string { "\"" + q.text + "\"" }

  function PersonsLine(q: Quote): string { "~ " + QuotedPersonsText(q.quotedPersons) }

  function BrainLine(q: Quote): string { IntToString(q.brain) + " Brain" }

  function SubmittedLine(q: Quote): string { "Submitted by " + FullName(q.quoter) + " on " + DateText(q.date) }

  /** The quoted-persons field is empty exactly when the quote names nobody. */
  lemma QuotedPersonsEmpty(persons: seq<Person>)
    ensures QuotedPersonsText(persons) == "" <==> persons == []
  {
    if persons != [] {
      JoinAt(FullNames(persons), PersonSeparator, 0);
    }
  }

  /**
   * The quoted-persons field lists every person's full name in input order:
   * name `i` starts at `Offset(...)`, and ", " follows it unless it is the last.
   */
  lemma QuotedPersonsInOrder(persons: seq<Person>, i: nat)
    requires i < |persons|
    ensures var names, r := FullNames(persons), QuotedPersonsText(persons);
      var o := Offset(names, PersonSeparator, i);
      o + |names[i]| <= |r| && r[o .. o + |names[i]|] == FullName(persons[i]) &&
      (i + 1 < |persons| ==>
         o + |names[i]| + |PersonSeparator| <= |r| &&
         r[o + |names[i]| .. o + |names[i]| + |PersonSeparator|] == PersonSeparator)
  {
    JoinAt(FullNames(persons), PersonSeparator, i);
  }

  /** Nothing but the names and the separators between them is in the quoted-persons field. */
  lemma QuotedPersonsLength(persons: seq<Person>)
    requires persons != []
    ensures |QuotedPersonsText(persons)| + |PersonSeparator| == Offset(FullNames(persons), PersonSeparator, |persons|)
  {
    JoinLength(FullNames(persons), PersonSeparator);
  }

  /** The rendered date has the same length as the input and has every '-' turned into '/'. */
  lemma DateTextRewritesDashes(date: string)
    ensures |DateText(date)| == |date| && '-' !in DateText(date)
    ensures forall k :: 0 <= k < |date| && date[k] != '-' ==> DateText(date)[k] == date[k]
    ensures forall k :: 0 <= k < |date| && date[k] == '-' ==> DateText(date)[k] == '/'
  {
  }

  /** No line break in any free-text field of the quote. */
  predicate SingleLineFields(q: Quote) {
    '\n' !in q.text && '\n' !in q.date &&
    '\n' !in FullName(q.quoter) && '\n' !in QuotedPersonsText(q.quotedPersons)
  }

  /**
   * A quote whose fields hold no line break renders as exactly four lines:
   * the text in double quotes, "~ " and the quoted persons, the brain count,
   * and who submitted it on which date.
   */
  lemma QuoteLines(q: Quote)
    requires SingleLineFields(q)
    ensures Lines(QuoteText(q)) == [
      "\"" + q.text + "\"",
      "~ " + QuotedPersonsText(q.quotedPersons),
      IntToString(q.brain) + " Brain",
      "Submitted by " + FullName(q.quoter) + " on " + DateText(q.date)]
  {
    IntToStringHasNoNewline(q.brain);
    DateTextRewritesDashes(q.date);
    assert '\n' !in DateText(q.date) by {
      forall k | 0 <= k < |q.date| ensures DateText(q.date)[k] != '\n' {
        assert q.date[k] != '\n';
      }
    }
    FourLines(TextLine(q), PersonsLine(q), BrainLine(q), SubmittedLine(q));
  }

  /** `format_quotes` as written: "\n\n" once before the first quote, then the quotes back to back. */
  function QuotesText(quotes: seq<Quote>): string
  {
    if quotes == [] then "" else "\n\n" + Concat(QuoteTexts(quotes))
  }

  function QuoteTexts(quotes: seq<Quote>): (texts: seq<string>)
    ensures |texts| == |quotes|
    ensures forall i :: 0 <= i < |quotes| ==> texts[i] == QuoteText(quotes[i])
  {
    seq(|quotes|, i requires 0 <= i < |quotes| => QuoteText(quotes[i]))
  }

  /** `format_quote_of_the_day`: a header line, then the quote. */
  function QuoteOfTheDayText(q: Quote): string
  {
    QuoteOfTheDayHeader + "\n" + QuoteText(q)
  }

  /** The quote of the day is the header line followed by exactly the lines of the quote. */
  lemma QuoteOfTheDayLines(q: Quote)
    ensures Lines(QuoteOfTheDayText(q)) == [QuoteOfTheDayHeader] + Lines(QuoteText(q))
  {
    assert '\n' !in QuoteOfTheDayHeader;
    LinesAfterLine(QuoteOfTheDayHeader, QuoteText(q));
  }

  /** The loop of `format_quote` over the quoted persons. */
  method FormatQuotedPersons(persons: seq<Person>) returns (r: string)
    ensures r == QuotedPersonsText(persons)
  {
    r := "";
    var i := 0;
    while i < |persons|
      invariant 0 <= i <= |persons|
      invariant r == PersonsSoFar(persons, i)
      invariant r == "" <==> i == 0
    {
      PersonsStep(persons, i, r);
      if r != "" {
        r := r + PersonSeparator;
      }
      r := r + FullName(persons[i]);
      i := i + 1;
    }
    assert FullNames(persons)[..i] == FullNames(persons);
  }

  /** What the loop of `format_quote` has built after `n` persons. */
  ghost function PersonsSoFar(persons: seq<Person>, n: nat): string
    requires n <= |persons|
  {
    Join(FullNames(persons)[..n], PersonSeparator)
  }

  /** One turn of the loop of `format_quote`: ", " goes before every name but the first. */
  lemma PersonsStep(persons: seq<Person>, i: nat, r: string)
    requires i < |persons|
    requires r == PersonsSoFar(persons, i)
    requires r == "" <==> i == 0
    ensures r == "" ==> r + FullName(persons[i]) == PersonsSoFar(persons, i + 1)
    ensures r != "" ==> r + PersonSeparator + FullName(persons[i]) == PersonsSoFar(persons, i + 1)
    ensures PersonsSoFar(persons, i + 1) != ""
  {
    var names := FullNames(persons);
    JoinSnoc(names[..i], names[i], PersonSeparator);
    assert names[..i + 1] == names[..i] + [names[i]];
    if i == 0 {
      assert names[..i] == [];
    }
    var next := PersonsSoFar(persons, i + 1);
    assert |next| >= |names[i]| > 0;
  }

  /** `format_quote`. */
  method FormatQuote(q: Quote) returns (r: string)
    ensures r == QuoteText(q)
  {
    var text := q.text;
    var quotedPersons := FormatQuotedPersons(q.quotedPersons);
    var brain := q.brain;
    var quoter := FullName(q.quoter);
    var date := DateText(q.date);
    r := "\"" + text + "\"" + "\n" + "~ " + quotedPersons + "\n" +
         IntToString(brain) + " Brain" + "\n" + "Submitted by " + quoter + " on " + date;
  }

  /** `format_quotes`, including its `res == ""` test: "\n\n" is added before the first quote only. */
  method FormatQuotes(quotes: seq<Quote>) returns (r: string)
    ensures r == QuotesText(quotes)
  {
    ghost var texts := QuoteTexts(quotes);
    r := "";
    var i := 0;
    while i < |quotes|
      invariant 0 <= i <= |quotes|
      invariant r == QuotesSoFar(texts, i)
    {
      QuotesStep(texts, i, r);
      if r == "" {
        r := r + "\n\n";
      }
      var quote := FormatQuote(quotes[i]);
      r := r + quote;
      i := i + 1;
    }
    assert texts[..i] == texts;
  }

  /** What the loop of `format_quotes` has built after `n` quotes. */
  ghost function QuotesSoFar(texts: seq<string>, n: nat): string
    requires n <= |texts|
  {
    if n == 0 then "" else "\n\n" + Concat(texts[..n])
  }

  /** One turn of the loop of `format_quotes`, on the rendered texts. */
  lemma QuotesStep(texts: seq<string>, i: nat, r: string)
    requires i < |texts|
    requires r == QuotesSoFar(texts, i)
    ensures r == "" <==> i == 0
    ensures r == "" ==> r + "\n\n" + texts[i] == QuotesSoFar(texts, i + 1)
    ensures r != "" ==> r + texts[i] == QuotesSoFar(texts, i + 1)
  {
    var nl2 := "\n\n";
    ConcatSnoc(texts, i);
    AppendAssoc(nl2, Concat(texts[..i]), texts[i]);
    if i == 0 {
      assert texts[..i] == [];
      assert r + nl2 == nl2;
    }
  }

  /** `format_quote_of_the_day`. */
  method FormatQuoteOfTheDay(q: Quote) returns (r: string)
    ensures r == QuoteOfTheDayText(q)
    ensures Lines(r) == [QuoteOfTheDayHeader] + Lines(QuoteText(q))
  {
    var quote := FormatQuote(q);
    r := QuoteOfTheDayHeader + "\n" + quote;
    QuoteOfTheDayLines(q);
  }

  /**
   * As written, `format_quotes` puts nothing between two quotes: for two
   * quotes on four lines each, the result has nine lines, two empty ones
   * first, and its sixth line is the last line of the first quote run
   * together with the first line of the second.
   */
  lemma QuotesRunTogether(q1: Quote, q2: Quote)
    requires SingleLineFields(q1) && SingleLineFields(q2)
    ensures var ls := Lines(QuotesText([q1, q2]));
      |ls| == 9 && ls[0] == "" && ls[1] == "" && ls[5] == SubmittedLine(q1) + TextLine(q2)
  {
    QuotesOfTwo(q1, q2);
    QuoteLines(q1);
    QuoteLines(q2);
    RunTogetherLines(QuoteText(q1), QuoteText(q2));
  }

  /** Two quotes, as written: the leading "\n\n", then both texts with nothing in between. */
  lemma QuotesOfTwo(q1: Quote, q2: Quote)
    ensures QuotesText([q1, q2]) == "\n\n" + (QuoteText(q1) + QuoteText(q2))
  {
    var a, b := QuoteText(q1), QuoteText(q2);
    var texts := QuoteTexts([q1, q2]);
    assert texts == [a, b];
    assert texts[..1] == [a] && [a][..0] == [];
    assert Concat([a]) == a;
  }

  /** "\n\n" followed by two four-line texts back to back: nine lines, the fourth of `a` glued to the first of `b`. */
  lemma RunTogetherLines(a: string, b: string)
    requires |Lines(a)| == 4 && |Lines(b)| == 4
    ensures var ls := Lines("\n\n" + (a + b));
      |ls| == 9 && ls[0] == "" && ls[1] == "" && ls[5] == Lines(a)[3] + Lines(b)[0]
  {
    var x := a + b;
    LinesConcat(a, b);
    LinesCons('\n', x);
    LinesCons('\n', ['\n'] + x);
    assert "\n\n" + x == ['\n'] + (['\n'] + x);
  }

  /** The evident intent of `format_quotes`: "\n\n" between consecutive quotes. */
  function SeparatedQuotesText(quotes: seq<Quote>): string
  {
    Join(QuoteTexts(quotes), "\n\n")
  }

  /**
   * With "\n\n" between quotes, every quote keeps its own four lines and one
   * empty line stands between consecutive quotes: quote `i` occupies lines
   * 5i to 5i+3.
   */
  lemma SeparatedQuotesLines(quotes: seq<Quote>, i: nat)
    requires forall k :: 0 <= k < |quotes| ==> SingleLineFields(quotes[k])
    requires i < |quotes|
    ensures var ls := Lines(SeparatedQuotesText(quotes));
      |ls| == 5 * |quotes| - 1 &&
      ls[5 * i .. 5 * i + 4] == Lines(QuoteText(quotes[i])) &&
      (i + 1 < |quotes| ==> ls[5 * i + 4] == "")
  {
    var texts := QuoteTexts(quotes);
    forall k | 0 <= k < |texts| ensures |Lines(texts[k])| == 4 {
      QuoteLines(quotes[k]);
    }
    FourLineBlocks(texts, i);
  }

  /** Texts of four lines each, joined with "\n\n": text `i` occupies lines 5i to 5i+3, then a blank line. */
  lemma FourLineBlocks(texts: seq<string>, i: nat)
    requires forall k :: 0 <= k < |texts| ==> |Lines(texts[k])| == 4
    requires i < |texts|
    ensures var ls := Lines(Join(texts, "\n\n"));
      |ls| == 5 * |texts| - 1 &&
      ls[5 * i .. 5 * i + 4] == Lines(texts[i]) &&
      (i + 1 < |texts| ==> ls[5 * i + 4] == "")
  {
    JoinBlankLines(texts);
    BlocksAt(LinesOf(texts), i);
  }

  // ---------------------------------------------------------------- subscription replies

  /** `format_already_subscribed`. */
  function AlreadySubscribed(time: string): string
  {
    AlreadySubscribedPrefix + time + "."
  }

  /** `format_subscription_removed`. */
  function SubscriptionRemoved(time: string): string
  {
    SubscriptionRemovedPrefix + time + SubscriptionRemovedSuffix
  }

  /** `format_subscription_successful`. */
  function SubscriptionSuccessful(time: string): string
  {
    SubscriptionSuccessfulPrefix + time + "."
  }

  /** Each subscription reply carries its time verbatim at a fixed position, so two replies of one kind differ exactly when their times do. */
  lemma SubscriptionRepliesEmbedTime(time: string)
    ensures var r, p := AlreadySubscribed(time), |AlreadySubscribedPrefix|;
      |r| == p + |time| + 1 && r[p .. p + |time|] == time
    ensures var r, p := SubscriptionRemoved(time), |SubscriptionRemovedPrefix|;
      |r| == p + |time| + |SubscriptionRemovedSuffix| && r[p .. p + |time|] == time
    ensures var r, p := SubscriptionSuccessful(time), |SubscriptionSuccessfulPrefix|;
      |r| == p + |time| + 1 && r[p .. p + |time|] == time
  {
    var r := AlreadySubscribed(time);
    assert r == AlreadySubscribedPrefix + (time + ".");
    SliceOfConcat(AlreadySubscribedPrefix, time + ".", 0, |time|);
    assert (time + ".")[..|time|] == time;
    r := SubscriptionRemoved(time);
    assert r == SubscriptionRemovedPrefix + (time + SubscriptionRemovedSuffix);
    SliceOfConcat(SubscriptionRemovedPrefix, time + SubscriptionRemovedSuffix, 0, |time|);
    assert (time + SubscriptionRemovedSuffix)[..|time|] == time;
    r := SubscriptionSuccessful(time);
    assert r == SubscriptionSuccessfulPrefix + (time + ".");
    SliceOfConcat(SubscriptionSuccessfulPrefix, time + ".", 0, |time|);
  }

  lemma SubscriptionRepliesInjective(a: string, b: string)
    ensures AlreadySubscribed(a) == AlreadySubscribed(b) ==> a == b
    ensures SubscriptionRemoved(a) == SubscriptionRemoved(b) ==> a == b
    ensures SubscriptionSuccessful(a) == SubscriptionSuccessful(b) ==> a == b
  {
    SubscriptionRepliesEmbedTime(a);
    SubscriptionRepliesEmbedTime(b);
  }

  /**
   * Every reply the subscribe and unsubscribe commands can send is told apart
   * from every reply of another kind, whatever times they carry: in
   * particular "removed" for the old time and "successful" for the new one.
   */
  lemma SubscriptionRepliesDistinct(a: string, b: string, c: string)
    ensures var replies := [NoTimeArgument, AlreadySubscribed(a), IncorrectTimeFormat, InvalidHour,
                            InvalidMinute, SubscriptionRemoved(b), SubscriptionSuccessful(c), NotSubscribed];
      forall i, j :: 0 <= i < j < |replies| ==> replies[i] != replies[j]
  {
    var replies := [NoTimeArgument, AlreadySubscribed(a), IncorrectTimeFormat, InvalidHour,
                    InvalidMinute, SubscriptionRemoved(b), SubscriptionSuccessful(c), NotSubscribed];
    // Four characters tell every reply apart: those at indices 0, 3, 4 and 8.
    assert replies[0][0] == 'P';
    assert replies[1][0] == 'Y' && replies[1][3] == ' ' && replies[1][4] == 'a' && replies[1][8] == 'a';
    assert replies[2][0] == 'I';
    assert replies[3][0] == 'T' && replies[3][4] == 'h';
    assert replies[4][0] == 'T' && replies[4][4] == 'm';
    assert replies[5][0] == 'Y' && replies[5][3] == 'r';
    assert replies[6][0] == 'Y' && replies[6][3] == ' ' && replies[6][4] == 'w';
    assert replies[7][0] == 'Y' && replies[7][3] == ' ' && replies[7][4] == 'a' && replies[7][8] == 'n';
  }

  // ---------------------------------------------------------------- error report

  /** `format_error`: the request, the user and a numeric code for the administrator. */
  function ErrorReport(request: string, username: string, code: int): string
  {
    ErrorRequestLine(request, username) + "\n" + ErrorCodeLine(code)
  }

  function ErrorRequestLine(request: string, username: string): string
  {
    "An error occurred for request " + request + " by user " + username + "."
  }

  function ErrorCodeLine(code: int): string { "Code: " + IntToString(code) }

  /** Whatever the request and user name contain, the last line is "Code: " and the code, which reads back. */
  lemma ErrorReportCodeOnLastLine(request: string, username: string, code: int)
    ensures var ls := Lines(ErrorReport(request, username, code));
      var last := ls[|ls| - 1];
      last == "Code: " + IntToString(code) &&
      IsIntLiteral(last[6..]) && ParseInt(last[6..]) == code
  {
    var last := ErrorCodeLine(code);
    LinesSplit(ErrorRequestLine(request, username), last);
    IntToStringHasNoNewline(code);
    assert '\n' !in last;
    LinesOfLine(last);
    assert last[6..] == IntToString(code);
    IntToStringRoundTrip(code);
  }
}
