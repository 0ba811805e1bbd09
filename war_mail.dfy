/**
 * The multi-tag war mail commands `winmail` and `lossmail`: the argument is
 * split on commas and every piece is sanitised, validated and, when its
 * clan is at war, answered with an announcement. Bad pieces are reported
 * and skipped; the rest go on.
 */
module WarMail {
  import Tags
  import opened Wrappers

  /** The two announcement templates. */
  datatype WarTemplate = WinTemplate | LossTemplate

  /** `if war_type == "win"`: every other war type gets the loss template. */
  function TemplateFor(warType: string): (t: WarTemplate)
    ensures t == WinTemplate <==> warType == "win"
  {
    if warType == "win" then WinTemplate else LossTemplate
  }

  /** Python's `s.split(sep)` for a one-character separator. */
  function Split(s: string, sep: char): (pieces: seq<string>)
    ensures |pieces| > 0
    ensures forall i :: 0 <= i < |pieces| ==> sep !in pieces[i]
  {
    if s == [] then [[]]
    else
      var rest := Split(s[1..], sep);
      if s[0] == sep then [[]] + rest else [[s[0]] + rest[0]] + rest[1..]
  }

  /** `sep.join(pieces)`. */
  function Join(pieces: seq<string>, sep: char): string {
    if pieces == [] then []
    else if |pieces| == 1 then pieces[0]
    else pieces[0] + [sep] + Join(pieces[1..], sep)
  }

  /** Splitting loses nothing: joining the pieces back gives the input. */
  lemma {:induction false} JoinSplit(s: string, sep: char)
    ensures Join(Split(s, sep), sep) == s
  {
    if s != [] {
      var rest := Split(s[1..], sep);
      JoinSplit(s[1..], sep);
      if s[0] == sep {
        assert Split(s, sep)[1..] == rest;
        assert s == [sep] + s[1..];
      } else if |rest| == 1 {
        assert s == [s[0]] + s[1..];
      } else {
        var pieces := Split(s, sep);
        assert pieces[1..] == rest[1..];
        assert Join(rest, sep) == rest[0] + [sep] + Join(rest[1..], sep);
        assert s == [s[0]] + s[1..];
      }
    }
  }

  lemma {:induction false} SplitAfterPiece(a: string, b: string, sep: char)
    requires sep !in a
    ensures Split(a + [sep] + b, sep) == [a] + Split(b, sep)
  {
    if a == [] {
      assert a + [sep] + b == [sep] + b;
      assert ([sep] + b)[1..] == b;
    } else {
      assert (a + [sep] + b)[1..] == a[1..] + [sep] + b;
      SplitAfterPiece(a[1..], b, sep);
      assert [a[0]] + a[1..] == a;
    }
  }

  lemma {:induction false} SplitOfPiece(a: string, sep: char)
    requires sep !in a
    ensures Split(a, sep) == [a]
  {
    if a != [] {
      SplitOfPiece(a[1..], sep);
      assert [a[0]] + a[1..] == a;
    }
  }

  /** Pieces free of the separator survive a join and a split unchanged. */
  lemma {:induction false} SplitJoin(pieces: seq<string>, sep: char)
    requires |pieces| > 0
    requires forall i :: 0 <= i < |pieces| ==> sep !in pieces[i]
    ensures Split(Join(pieces, sep), sep) == pieces
  {
    if |pieces| == 1 {
      SplitOfPiece(pieces[0], sep);
    } else {
      SplitJoin(pieces[1..], sep);
      SplitAfterPiece(pieces[0], Join(pieces[1..], sep), sep);
      assert [pieces[0]] + pieces[1..] == pieces;
    }
  }

  /** What the loop reads of `fetch_war_info`'s answer: does it name both clans? */
  datatype WarInfo = WarInfo(hasClan: bool, hasOpponent: bool)

  /**
   * How `fetch_war_info` ends: its unguarded request (or the decoding of the
   * reply) raises, or it returns the decoded reply, `None` for a status
   * other than 200.
   */
  datatype Fetch = FetchRaised | Fetched(warData: Option<WarInfo>)

  /**
   * The network as the loop sees it: `fetch(k, tag)` is how the request made
   * for the piece at position `k` ends. Every piece makes a request of its own,
   * so a tag repeated in one command can get a different reply each time.
   */
  type WarSource = (nat, string) -> Fetch

  /** `not war_data or "clan" not in war_data or "opponent" not in war_data`, negated. */
  predicate Usable(warData: Option<WarInfo>) {
    warData.Some? && warData.value.hasClan && warData.value.hasOpponent
  }

  /** What the bot answers for one piece of the argument. */
  datatype MailReport =
    | InvalidTagReport(shown: string)
    | NoWarReport(tag: string)
    | WarMailReport(tag: string, template: WarTemplate)

  /** One round of the loop: an answer for the piece, or the exception that ends the command. */
  datatype Round = Answered(report: MailReport) | Raised

  /**
   * One round of `send_war_mail_for_tags`' loop, for the piece `raw` at
   * position `k`. Only a piece that sanitises to a valid tag reaches the API,
   * and it is then named by its canonical tag; a fetch that raises ends the
   * round without an answer; an announcement goes out exactly when the reply
   * names both clans, with the template the war type selects.
   */
  function RoundFor(k: nat, raw: string, warType: string, fetch: WarSource): (r: Round)
    ensures (r.Answered? && r.report.InvalidTagReport?) <==> !Tags.IsValidTag(Tags.SanitizeTag(raw))
    ensures r.Answered? && r.report.InvalidTagReport? ==> r.report.shown == Tags.Strip(raw)
    ensures r.Raised? <==>
              Tags.IsValidTag(Tags.SanitizeTag(raw)) && fetch(k, Tags.SanitizeTag(raw)).FetchRaised?
    ensures r.Answered? && !r.report.InvalidTagReport? ==>
              r.report.tag == Tags.SanitizeTag(raw) && Tags.Canonical(r.report.tag)
    ensures (r.Answered? && r.report.WarMailReport?) <==>
              Tags.IsValidTag(Tags.SanitizeTag(raw)) && fetch(k, Tags.SanitizeTag(raw)) != FetchRaised
              && Usable(fetch(k, Tags.SanitizeTag(raw)).warData)
    ensures r.Answered? && r.report.WarMailReport? ==> r.report.template == TemplateFor(warType)
  {
    var clanTag := Tags.SanitizeTag(raw);
    if !Tags.IsValidTag(clanTag) then Answered(InvalidTagReport(Tags.Strip(raw)))
    else
      Tags.SanitizedValidIsCanonical(raw);
      match fetch(k, clanTag)
      case FetchRaised => Raised
      case Fetched(warData) =>
        if !Usable(warData) then Answered(NoWarReport(clanTag))
        else Answered(WarMailReport(clanTag, TemplateFor(warType)))
  }

  /**
   * What `send_war_mail_for_tags` does with `pieces`: it answers them in
   * order, each as its round says, until a fetch raises; the exception ends
   * the command, and the pieces after it get no answer.
   */
  predicate AnsweredInOrder(pieces: seq<string>, warType: string, fetch: WarSource,
                            reports: seq<MailReport>, aborted: bool)
  {
    && |reports| <= |pieces|
    && (forall i :: 0 <= i < |reports| ==> RoundFor(i, pieces[i], warType, fetch) == Answered(reports[i]))
    && (aborted <==> |reports| < |pieces|)
    && (aborted ==> RoundFor(|reports|, pieces[|reports|], warType, fetch).Raised?)
  }

  /** The answers are determined by the pieces: there is only one way to answer them in order. */
  lemma AnsweredInOrderUnique(pieces: seq<string>, warType: string, fetch: WarSource,
                              reports1: seq<MailReport>, aborted1: bool,
                              reports2: seq<MailReport>, aborted2: bool)
    requires AnsweredInOrder(pieces, warType, fetch, reports1, aborted1)
    requires AnsweredInOrder(pieces, warType, fetch, reports2, aborted2)
    ensures reports1 == reports2 && aborted1 == aborted2
  {
    forall i | 0 <= i < |reports1| && i < |reports2| ensures reports1[i] == reports2[i] {
      assert Answered(reports1[i]) == Answered(reports2[i]);
    }
  }

  /** When no fetch raises, every piece gets its answer. */
  lemma AllAnsweredWithoutRaise(pieces: seq<string>, warType: string, fetch: WarSource,
                                reports: seq<MailReport>, aborted: bool)
    requires AnsweredInOrder(pieces, warType, fetch, reports, aborted)
    requires forall k, p :: fetch(k, p) != FetchRaised
    ensures !aborted && |reports| == |pieces|
  {
  }

  /**
   * `winmail 2L80RLGJ8,2L80RLGJ8` can mail for the first piece and then end
   * on a request that raises for the second: the same tag, asked twice, need
   * not get the same reply.
   */
  lemma RepeatedTagCanGetNewReply()
    ensures var own := "2L80RLGJ8";
      var fetch: WarSource := (k, t) => if k == 0 then Fetched(Some(WarInfo(true, true))) else FetchRaised;
      AnsweredInOrder([own, own], "win", fetch, [WarMailReport(own, WinTemplate)], true)
  {
    var own := "2L80RLGJ8";
    var fetch: WarSource := (k, t) => if k == 0 then Fetched(Some(WarInfo(true, true))) else FetchRaised;
    assert Tags.Canonical(own) by {
      assert forall i :: 0 <= i < |own| ==> own[i] in Tags.TagAlphabet;
    }
    Tags.CanonicalIsFixed(own);
    assert RoundFor(0, own, "win", fetch) == Answered(WarMailReport(own, WinTemplate));
    assert RoundFor(1, own, "win", fetch) == Raised;
  }

  /**
   * `send_war_mail_for_tags`: one answer per piece, in the order given; an
   * invalid piece or a clan not at war is reported and the loop carries on,
   * while a fetch that raises ends the command.
   */
  method SendWarMailForTags(tags: seq<string>, warType: string, fetch: WarSource)
    returns (reports: seq<MailReport>, aborted: bool)
    ensures AnsweredInOrder(tags, warType, fetch, reports, aborted)
  {
    reports := [];
    aborted := false;
    for i := 0 to |tags|
      invariant |reports| == i
      invariant forall j :: 0 <= j < i ==> RoundFor(j, tags[j], warType, fetch) == Answered(reports[j])
    {
      var rawTag := tags[i];
      ghost var round := RoundFor(i, rawTag, warType, fetch);
      var clanTag := Tags.SanitizeTag(rawTag);
      if !Tags.IsValidTag(clanTag) {
        assert round == Answered(InvalidTagReport(Tags.Strip(rawTag)));
        reports := reports + [InvalidTagReport(Tags.Strip(rawTag))];
        continue;
      }
      var fetched := fetch(i, clanTag);
      if fetched.FetchRaised? {
        assert round == Raised;
        aborted := true;
        return;
      }
      if !Usable(fetched.warData) {
        assert round == Answered(NoWarReport(clanTag));
        reports := reports + [NoWarReport(clanTag)];
        continue;
      }
      assert round == Answered(WarMailReport(clanTag, TemplateFor(warType)));
      reports := reports + [WarMailReport(clanTag, TemplateFor(warType))];
    }
  }

  datatype WarMailOutcome = MissingTags | Processed(reports: seq<MailReport>, aborted: bool)

  /**
   * The body shared by `winmail` and `lossmail`: a missing or empty argument
   * is refused before anything else; otherwise the comma-separated pieces
   * are processed in order.
   */
  method WarMailCommand(tags: Option<string>, warType: string, fetch: WarSource)
    returns (r: WarMailOutcome)
    ensures r == MissingTags <==> tags == None || tags == Some("")
    ensures r.Processed? ==> AnsweredInOrder(Split(tags.value, ','), warType, fetch, r.reports, r.aborted)
  {
    if tags == None || tags.value == "" {
      return MissingTags;
    }
    var pieces := Split(tags.value, ',');
    var reports, aborted := SendWarMailForTags(pieces, warType, fetch);
    return Processed(reports, aborted);
  }

  /** `winmail`: the pieces are answered in order, and every announcement uses the win template. */
  method WinMail(tags: Option<string>, fetch: WarSource) returns (r: WarMailOutcome)
    ensures r == MissingTags <==> tags == None || tags == Some("")
    ensures r.Processed? ==> AnsweredInOrder(Split(tags.value, ','), "win", fetch, r.reports, r.aborted)
    ensures r.Processed? ==> forall i :: 0 <= i < |r.reports| && r.reports[i].WarMailReport? ==>
              r.reports[i].template == WinTemplate
  {
    r := WarMailCommand(tags, "win", fetch);
  }

  /** `lossmail`: the pieces are answered in order, and every announcement uses the loss template. */
  method LossMail(tags: Option<string>, fetch: WarSource) returns (r: WarMailOutcome)
    ensures r == MissingTags <==> tags == None || tags == Some("")
    ensures r.Processed? ==> AnsweredInOrder(Split(tags.value, ','), "loss", fetch, r.reports, r.aborted)
    ensures r.Processed? ==> forall i :: 0 <= i < |r.reports| && r.reports[i].WarMailReport? ==>
              r.reports[i].template == LossTemplate
  {
    r := WarMailCommand(tags, "loss", fetch);
  }
}
