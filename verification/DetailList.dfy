/** The list of details that grouping builds event by event, without the text in between. */
module DetailList {
  import opened Prelude
  import opened Whitespace
  import opened Strings
  import opened Numerals
  import opened Grouping

  /** The details as a list, without the text in between: what grouping is meant to keep. */
  function DetailsOf(messages: seq<string>): seq<CountedDetail>
    requires messages != []
  {
    if |messages| == 1 then [CountedDetail(messages[0], 1)]
    else Pushed(DetailsOf(messages[..|messages| - 1]), messages[|messages| - 1])
  }

  // ----- what the details say about the run -----

  ghost predicate DistinctTexts(details: seq<CountedDetail>) {
    forall i, j :: 0 <= i < j < |details| ==> Normalize(details[i].text) != Normalize(details[j].text)
  }

  lemma PushedDistinct(details: seq<CountedDetail>, text: string)
    requires DistinctTexts(details)
    ensures DistinctTexts(Pushed(details, text))
  {
    var i := IndexOfDetail(details, text);
    if i.None? && !AllBlank(text) { LastFourDistinct(details + [CountedDetail(text, 1)]); }
  }

  lemma LastFourDistinct(details: seq<CountedDetail>)
    requires DistinctTexts(details)
    ensures DistinctTexts(LastFour(details))
  {
  }

  /** However many kinds of messages occur, no two rows show the same one. */
  lemma {:induction false} DetailsAreDistinct(messages: seq<string>)
    requires messages != []
    ensures DistinctTexts(DetailsOf(messages))
  {
    if |messages| > 1 {
      DetailsAreDistinct(messages[..|messages| - 1]);
      PushedDistinct(DetailsOf(messages[..|messages| - 1]), messages[|messages| - 1]);
    }
  }

  /** The different messages of a run, up to white space. */
  function Kinds(messages: seq<string>): set<string> {
    set m | m in messages :: Normalize(m)
  }

  function KindsOf(details: seq<CountedDetail>): set<string> {
    set d | d in details :: Normalize(d.text)
  }

  function Total(details: seq<CountedDetail>): nat {
    if details == [] then 0 else details[0].count + Total(details[1..])
  }

  /** How often a message occurs in a run, up to white space. */
  function Occurrences(messages: seq<string>, kind: string): nat {
    if messages == [] then 0
    else Occurrences(messages[..|messages| - 1], kind) + (if Normalize(messages[|messages| - 1]) == kind then 1 else 0)
  }

  lemma {:induction false} DistinctCount(details: seq<CountedDetail>)
    requires DistinctTexts(details)
    ensures |KindsOf(details)| == |details|
  {
    if details != [] {
      var rest, last := details[..|details| - 1], details[|details| - 1];
      DistinctCount(rest);
      assert details == rest + [last];
      assert KindsOf(details) == KindsOf(rest) + {Normalize(last.text)};
    }
  }

  lemma {:induction false} TotalUpdate(details: seq<CountedDetail>, i: nat, d: CountedDetail)
    requires i < |details|
    ensures Total(details[i := d]) == Total(details) - details[i].count + d.count
  {
    if i > 0 {
      TotalUpdate(details[1..], i - 1, d);
      assert details[i := d][1..] == details[1..][i - 1 := d];
    }
  }

  lemma {:induction false} TotalSnoc(details: seq<CountedDetail>, d: CountedDetail)
    ensures Total(details + [d]) == Total(details) + d.count
  {
    if details != [] {
      TotalSnoc(details[1..], d);
      assert (details + [d])[1..] == details[1..] + [d];
    }
  }

  ghost predicate CountsAgree(details: seq<CountedDetail>, messages: seq<string>) {
    forall i :: 0 <= i < |details| ==>
      details[i].count == Occurrences(messages, Normalize(details[i].text)) <= |messages|
  }

  /** The details stand for the run exactly: which messages, how often each, how many in all. */
  ghost predicate Describes(details: seq<CountedDetail>, messages: seq<string>) {
    && DistinctTexts(details)
    && KindsOf(details) == Kinds(messages)
    && Total(details) == |messages|
    && CountsAgree(details, messages)
  }

  lemma CountsUpdate(details: seq<CountedDetail>, i: nat, messages: seq<string>, m: string)
    requires DistinctTexts(details) && CountsAgree(details, messages)
    requires i < |details| && Normalize(details[i].text) == Normalize(m)
    ensures CountsAgree(details[i := details[i].(count := details[i].count + 1)], messages + [m])
  {
    OccurrencesGrow(messages, m);
  }

  lemma KnownAt(details: seq<CountedDetail>, i: nat, d: CountedDetail, messages: seq<string>, m: string)
    requires Describes(details, messages)
    requires i < |details| && Normalize(details[i].text) == Normalize(m)
    requires d == details[i].(count := details[i].count + 1)
    ensures Describes(details[i := d], messages + [m])
  {
    CountsUpdate(details, i, messages, m);
    TotalUpdate(details, i, d);
    KindsGrow(messages, m);
    assert details[i] in details;
    UpdateKeepsKinds(details, i, d);
    assert Normalize(m) in KindsOf(details);
  }

  /** A known message adds one to its count. */
  lemma KnownMessage(details: seq<CountedDetail>, messages: seq<string>, m: string)
    requires Describes(details, messages) && !AllBlank(m) && |messages| < USIZE_MAX
    requires IndexOfDetail(details, m).Some?
    ensures Describes(Pushed(details, m), messages + [m])
  {
    var i := IndexOfDetail(details, m).value;
    var d := details[i].(count := details[i].count + 1);
    assert Pushed(details, m) == details[i := d] by {
      PushedKnown(details, m, i);
    }
    KnownAt(details, i, d, messages, m);
  }

  lemma PushedKnown(details: seq<CountedDetail>, m: string, i: nat)
    requires !AllBlank(m) && IndexOfDetail(details, m) == Some(i) && details[i].count < USIZE_MAX
    ensures Pushed(details, m) == details[i := details[i].(count := details[i].count + 1)]
  {
  }

  lemma UpdateKeepsKinds(details: seq<CountedDetail>, i: nat, d: CountedDetail)
    requires i < |details| && d.text == details[i].text
    ensures KindsOf(details[i := d]) == KindsOf(details)
    ensures DistinctTexts(details) ==> DistinctTexts(details[i := d])
  {
    var updated := details[i := d];
    assert forall j :: 0 <= j < |details| ==> updated[j].text == details[j].text;
    assert forall j :: 0 <= j < |details| ==> updated[j] in updated && details[j] in details;
  }

  lemma KindsGrow(messages: seq<string>, m: string)
    ensures Kinds(messages + [m]) == Kinds(messages) + {Normalize(m)}
  {
    assert m in messages + [m];
  }

  lemma OccurrencesGrow(messages: seq<string>, m: string)
    ensures forall k :: Occurrences(messages + [m], k) == Occurrences(messages, k) + if Normalize(m) == k then 1 else 0
  {
    assert (messages + [m])[..|messages|] == messages;
  }

  lemma {:induction false} NoOccurrence(messages: seq<string>, kind: string)
    requires kind !in Kinds(messages)
    ensures Occurrences(messages, kind) == 0
  {
    if messages != [] {
      var n := |messages| - 1;
      assert messages[n] in messages;
      NoOccurrence(messages[..n], kind);
    }
  }

  lemma CountsAppend(details: seq<CountedDetail>, messages: seq<string>, m: string)
    requires CountsAgree(details, messages) && Normalize(m) !in Kinds(messages)
    requires forall i :: 0 <= i < |details| ==> Normalize(details[i].text) != Normalize(m)
    ensures CountsAgree(details + [CountedDetail(m, 1)], messages + [m])
  {
    OccurrencesGrow(messages, m);
    NoOccurrence(messages, Normalize(m));
  }

  lemma KindsAppend(details: seq<CountedDetail>, m: string)
    ensures KindsOf(details + [CountedDetail(m, 1)]) == KindsOf(details) + {Normalize(m)}
    ensures IndexOfDetail(details, m).None? ==> Normalize(m) !in KindsOf(details)
  {
    assert CountedDetail(m, 1) in details + [CountedDetail(m, 1)];
  }

  /** A new message gets its own row, as long as there is room for it. */
  lemma NewMessage(details: seq<CountedDetail>, messages: seq<string>, m: string)
    requires Describes(details, messages) && !AllBlank(m) && |details| < 4
    requires IndexOfDetail(details, m).None?
    ensures Describes(Pushed(details, m), messages + [m])
  {
    KindsAppend(details, m);
    KindsGrow(messages, m);
    CountsAppend(details, messages, m);
    TotalSnoc(details, CountedDetail(m, 1));
    assert Pushed(details, m) == details + [CountedDetail(m, 1)];
  }

  /**
   When a run holds at most four different messages, the rows are distinct, name exactly those
   messages with their numbers of occurrences, and add up to the number of events.
   */
  lemma {:induction false} DetailsDescribeTheRun(messages: seq<string>)
    requires messages != [] && |messages| <= USIZE_MAX && |Kinds(messages)| <= 4
    requires forall i :: 0 <= i < |messages| ==> !AllBlank(messages[i])
    ensures Describes(DetailsOf(messages), messages)
  {
    var n := |messages| - 1;
    var before, m := messages[..n], messages[n];
    assert messages == before + [m];
    if n == 0 {
      DescribesOne(m);
    } else {
      KindsGrow(before, m);
      FewerKinds(Kinds(before), Kinds(messages));
      DetailsDescribeTheRun(before);
      NextMessage(DetailsOf(before), before, m);
    }
  }

  lemma FewerKinds(a: set<string>, b: set<string>)
    requires a <= b
    ensures |a| <= |b|
  {
    if a != b {
      assert b == a + (b - a);
    }
  }

  lemma NextMessage(details: seq<CountedDetail>, messages: seq<string>, m: string)
    requires Describes(details, messages) && !AllBlank(m) && |messages| < USIZE_MAX
    requires |Kinds(messages + [m])| <= 4
    ensures Describes(Pushed(details, m), messages + [m])
  {
    if IndexOfDetail(details, m).Some? {
      KnownMessage(details, messages, m);
    } else {
      DistinctCount(details);
      KindsAppend(details, m);
      KindsGrow(messages, m);
      NewMessage(details, messages, m);
    }
  }

  lemma DescribesOne(m: string)
    ensures Describes([CountedDetail(m, 1)], [m])
  {
    assert [CountedDetail(m, 1)][1..] == [];
    assert [m][..0] == [];
    OccurrencesGrow([], m);
    assert [] + [m] == [m];
  }

  // ----- which rows remain -----

  /** The positions of the messages that no row showed when they came. */
  function NewAt(messages: seq<string>): seq<nat>
    requires messages != []
  {
    if |messages| == 1 then [0]
    else
      var n := |messages| - 1;
      NewAt(messages[..n]) + (if IndexOfDetail(DetailsOf(messages[..n]), messages[n]).Some? then [] else [n])
  }

  /** The row of a message that was new at position `p`: how often it came since. */
  function RowSince(messages: seq<string>, p: nat): CountedDetail
    requires p < |messages|
  {
    CountedDetail(messages[p], Min(Occurrences(messages[p..], Normalize(messages[p])), USIZE_MAX))
  }

  ghost predicate ShowsSince(details: seq<CountedDetail>, messages: seq<string>, positions: seq<nat>) {
    && |details| == |positions|
    && forall i :: 0 <= i < |positions| ==> positions[i] < |messages| && details[i] == RowSince(messages, positions[i])
  }

  /** One message more: the row of its kind counts one more, the others stay as they are. */
  lemma RowSinceGrows(messages: seq<string>, m: string, p: nat)
    requires p < |messages|
    ensures RowSince(messages + [m], p) ==
            var d := RowSince(messages, p);
            if Normalize(d.text) == Normalize(m) then d.(count := SaturatingNext(d.count)) else d
  {
    assert (messages + [m])[p..] == messages[p..] + [m];
    OccurrencesGrow(messages[p..], m);
  }

  lemma RowSinceNew(messages: seq<string>, m: string)
    ensures RowSince(messages + [m], |messages|) == CountedDetail(m, 1)
  {
    assert (messages + [m])[|messages|..] == [] + [m];
    OccurrencesGrow([], m);
  }

  lemma KnownSince(details: seq<CountedDetail>, messages: seq<string>, positions: seq<nat>, m: string, i: nat)
    requires ShowsSince(details, messages, positions) && DistinctTexts(details)
    requires i < |details| && Normalize(details[i].text) == Normalize(m)
    ensures ShowsSince(details[i := details[i].(count := SaturatingNext(details[i].count))], messages + [m], positions)
  {
    var updated := details[i := details[i].(count := SaturatingNext(details[i].count))];
    forall j | 0 <= j < |positions| ensures updated[j] == RowSince(messages + [m], positions[j]) {
      RowSinceGrows(messages, m, positions[j]);
    }
  }

  lemma NewSince(details: seq<CountedDetail>, messages: seq<string>, positions: seq<nat>, m: string)
    requires ShowsSince(details, messages, positions) && IndexOfDetail(details, m).None?
    ensures ShowsSince(details + [CountedDetail(m, 1)], messages + [m], positions + [|messages|])
  {
    forall j | 0 <= j < |positions| ensures details[j] == RowSince(messages + [m], positions[j]) {
      RowSinceGrows(messages, m, positions[j]);
    }
    RowSinceNew(messages, m);
  }

  lemma LastFourSince(details: seq<CountedDetail>, messages: seq<string>, positions: seq<nat>)
    requires ShowsSince(details, messages, positions)
    ensures ShowsSince(LastFour(details), messages, LastFour(positions))
  {
  }

  lemma LastFourTwice<T>(s: seq<T>, x: T)
    ensures LastFour(LastFour(s) + [x]) == LastFour(s + [x])
  {
  }

  /**
   Which rows remain, however many kinds of messages there are: those of the last four messages that were
   new when they came, oldest first, each with the number of times it came since.
   */
  lemma {:induction false} RowsAreLastNew(messages: seq<string>)
    requires messages != [] && forall i :: 0 <= i < |messages| ==> !AllBlank(messages[i])
    ensures ShowsSince(DetailsOf(messages), messages, LastFour(NewAt(messages)))
    decreases |messages|
  {
    if |messages| == 1 {
      assert messages == [] + [messages[0]];
      RowSinceNew([], messages[0]);
    } else {
      var before, m := messages[..|messages| - 1], messages[|messages| - 1];
      assert messages == before + [m];
      RowsAreLastNew(before);
      DetailsAreDistinct(before);
      RowsStayLastNew(before, m);
    }
  }

  lemma OneDetailMore(before: seq<string>, m: string)
    requires before != []
    ensures DetailsOf(before + [m]) == Pushed(DetailsOf(before), m)
  {
    InitOfSnoc(before, m);
  }

  lemma OnePositionMore(before: seq<string>, m: string)
    requires before != []
    ensures NewAt(before + [m]) ==
            NewAt(before) + (if IndexOfDetail(DetailsOf(before), m).Some? then [] else [|before|])
  {
    InitOfSnoc(before, m);
  }

  lemma RowsStayLastNew(before: seq<string>, m: string)
    requires before != [] && !AllBlank(m) && DistinctTexts(DetailsOf(before))
    requires ShowsSince(DetailsOf(before), before, LastFour(NewAt(before)))
    ensures ShowsSince(DetailsOf(before + [m]), before + [m], LastFour(NewAt(before + [m])))
  {
    var details, all := DetailsOf(before), NewAt(before);
    OneDetailMore(before, m);
    OnePositionMore(before, m);
    if IndexOfDetail(details, m).Some? {
      KnownSince(details, before, LastFour(all), m, IndexOfDetail(details, m).value);
      assert all + [] == all;
    } else {
      PushedNew(details, before, all, m);
    }
  }

  lemma PushedNew(details: seq<CountedDetail>, before: seq<string>, all: seq<nat>, m: string)
    requires ShowsSince(details, before, LastFour(all)) && !AllBlank(m) && IndexOfDetail(details, m).None?
    ensures ShowsSince(Pushed(details, m), before + [m], LastFour(all + [|before|]))
  {
    var longer, positions := details + [CountedDetail(m, 1)], LastFour(all) + [|before|];
    NewSince(details, before, LastFour(all), m);
    LastFourSince(longer, before + [m], positions);
    LastFourTwice(all, |before|);
    assert Pushed(details, m) == LastFour(longer);
  }
}
