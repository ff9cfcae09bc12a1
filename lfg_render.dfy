/**
 * The text and message payloads `render_message` and `expire_session` put
 * together: the fill count, the participant listing, titles, mentions, the
 * join button and the flavour text of a stale ping.
 */
module LfgRender {
  import opened Wrappers
  import opened Primitives
  import opened Text
  import opened Models
  import opened Discord

  const EXPIRED_MESSAGES: seq<string> := [
    "Shoot. We left it out too long, and the ping expired",
    "Arena is dead and this unplayed ping proves it",
    "Maybe the ping would fill up if wife came back",
    "*Surely* next ping will fill up right?"
  ]

  const STATUS_COLOR: nat := 0x8ae24a
  const EXPIRED_COLOR: nat := 0xff3030
  const FOOTER := "*delete the original message to cancel*"
  const HEADING := "**Participants:**"
  const JOIN_LABEL := "Logging on / Online!"
  const READY_DESCRIPTION := "Good luck everyone! Make wife proud!"

  /** Mentions in the ready announcement notify the roles and users named in it. */
  const READY_ALLOWED_MENTIONS := AllowedMentions(false, [Roles, Users], [], [])

  // ---------------------------------------------------------------- count

  /** The fill count: the head-count committed at creation plus everyone who joined since. */
  function Count(s: LFGSession): nat {
    s.initialNumber + |s.participants|
  }

  /** The users the listing names: the author, then the joiners, then the users mentioned at creation. */
  function Named(s: LFGSession): seq<UserId> {
    [s.author] + s.participants + s.addedParticipants
  }

  /** Quorum: the fill count has reached the required number. */
  predicate Ready(s: LFGSession) {
    Count(s) >= s.requiredNumber
  }

  // -------------------------------------------------------------- listing

  function Bullet(u: nat): string {
    "`•` " + Mention(u)
  }

  function Bullets(us: seq<nat>): (bs: seq<string>)
    ensures |bs| == |us|
    ensures forall i | 0 <= i < |us| :: bs[i] == Bullet(us[i])
  {
    if |us| == 0 then [] else [Bullet(us[0])] + Bullets(us[1..])
  }

  /** The line standing for the `n` people counted but not named. */
  function OthersText(n: nat): string {
    "`•` **and " + Decimal(n) + " other(s)...**"
  }

  function OthersLines(s: LFGSession): seq<string> {
    if |Named(s)| < Count(s) then [OthersText(Count(s) - |Named(s)|)] else []
  }

  /**
   * The frame lfg.rs puts around the bullet lines: two blank lines and the
   * heading before them, the optional "others" line and then a blank line
   * and the footer after them.
   */
  function Frame(heading: string, footer: string, bullets: seq<string>, others: seq<string>): seq<string> {
    ["", "", heading] + bullets + others + ["", footer]
  }

  /** The same frame as lfg.rs writes it around the bullets text and the optional "others" text. */
  function FrameText(heading: string, footer: string, bullets: string, others: string): string {
    "\n\n" + heading + "\n" + bullets + others + "\n\n" + footer
  }

  function ListingLines(s: LFGSession): seq<string> {
    Frame(HEADING, FOOTER, Bullets(Named(s)), OthersLines(s))
  }

  /** The participant listing, one bullet per line (the corrected form; see ListingAsWritten). */
  function Listing(s: LFGSession): string {
    Unlines(ListingLines(s))
  }

  /**
   * The listing as lfg.rs builds it: the author's bullet is followed directly
   * by the joined bullets of the others, with no line break between them.
   */
  function ListingAsWritten(s: LFGSession): string {
    FrameText(HEADING, FOOTER, Bullet(s.author) + Join(Bullets(s.participants + s.addedParticipants), "\n"),
              OthersSuffix(s))
  }

  function OthersSuffix(s: LFGSession): string {
    if |Named(s)| < Count(s) then "\n" + OthersText(Count(s) - |Named(s)|) else ""
  }

  lemma DigitsNoBreak(d: string)
    requires AllDigits(d)
    ensures NoBreak(d)
  {
  }

  /** No line in `ls` contains a break. */
  predicate Clean(ls: seq<string>) {
    forall i | 0 <= i < |ls| :: NoBreak(ls[i])
  }

  lemma CleanAppend(a: seq<string>, b: seq<string>)
    requires Clean(a) && Clean(b)
    ensures Clean(a + b)
  {
  }

  lemma BulletNoBreak(u: nat)
    ensures NoBreak(Bullet(u))
  {
    DigitsNoBreak(Decimal(u));
  }

  lemma BulletsClean(us: seq<nat>)
    ensures Clean(Bullets(us))
  {
    forall i | 0 <= i < |us| ensures NoBreak(Bullets(us)[i]) {
      BulletNoBreak(us[i]);
    }
  }

  lemma {:induction false} BulletsAppend(a: seq<nat>, b: seq<nat>)
    ensures Bullets(a + b) == Bullets(a) + Bullets(b)
  {
  }

  lemma OthersLinesClean(s: LFGSession)
    ensures |OthersLines(s)| <= 1 && Clean(OthersLines(s))
  {
    if |Named(s)| < Count(s) {
      DigitsNoBreak(Decimal(Count(s) - |Named(s)|));
      assert NoBreak(OthersLines(s)[0]);
    }
  }

  lemma FrameConstantsNoBreak()
    ensures NoBreak(HEADING) && NoBreak(FOOTER)
  {
  }

  /** A frame of lines without breaks around clean lines is clean. */
  lemma {:induction false} FrameClean(heading: string, footer: string, bullets: seq<string>, others: seq<string>)
    requires NoBreak(heading) && NoBreak(footer) && Clean(bullets) && Clean(others)
    ensures Clean(Frame(heading, footer, bullets, others))
  {
    CleanAppend(["", "", heading], bullets);
    CleanAppend(["", "", heading] + bullets, others);
    CleanAppend(["", "", heading] + bullets + others, ["", footer]);
  }

  lemma ListingLinesClean(s: LFGSession)
    ensures Clean(ListingLines(s))
  {
    BulletsClean(Named(s));
    OthersLinesClean(s);
    FrameConstantsNoBreak();
    FrameClean(HEADING, FOOTER, Bullets(Named(s)), OthersLines(s));
  }

  lemma ListingLinesRoundTrip(s: LFGSession)
    ensures Lines(Listing(s)) == ListingLines(s)
  {
    ListingLinesClean(s);
    LinesUnlines(ListingLines(s));
  }

  /**
   * The listing's lines are: two blank lines and the heading; one bullet per
   * named user, in the order author, joiners, users mentioned at creation;
   * the line for the unnamed rest, if any (see OthersLineShown); a blank
   * line and the footer.
   */
  lemma ListingLayout(s: LFGSession)
    ensures Lines(Listing(s)) == ["", "", HEADING]
                                 + Bullets([s.author]) + Bullets(s.participants) + Bullets(s.addedParticipants)
                                 + OthersLines(s) + ["", FOOTER]
  {
    ListingLinesRoundTrip(s);
    BulletsAppend([s.author], s.participants);
    BulletsAppend([s.author] + s.participants, s.addedParticipants);
    SplitMiddle(["", "", HEADING], Bullets(Named(s)),
                Bullets([s.author]), Bullets(s.participants), Bullets(s.addedParticipants),
                OthersLines(s), ["", FOOTER]);
  }

  lemma SplitMiddle<T>(h: seq<T>, m: seq<T>, a: seq<T>, b: seq<T>, c: seq<T>, t: seq<T>, u: seq<T>)
    requires m == a + b + c
    ensures h + m + t + u == h + a + b + c + t + u
  {
  }

  /**
   * The lines of the listing as lfg.rs builds it: as in the corrected
   * listing, except that when anyone besides the author is named, the
   * author's bullet and the next named user's bullet share one line.
   */
  function GluedBullets(s: LFGSession): seq<string> {
    Glued(Named(s))
  }

  /** The bullets of `n`, with the first two on one line. */
  function Glued(n: seq<nat>): seq<string> {
    if |n| > 1 then [Bullet(n[0]) + Bullet(n[1])] + Bullets(n[2..]) else Bullets(n)
  }

  function AsWrittenLines(s: LFGSession): seq<string> {
    Frame(HEADING, FOOTER, GluedBullets(s), OthersLines(s))
  }

  /** A line written directly before lines joined by breaks lands on the first of them. */
  lemma {:induction false} GlueJoin(a: string, bs: seq<string>)
    requires |bs| > 0
    ensures a + Join(bs, "\n") == Unlines([a + bs[0]] + bs[1..])
  {
    JoinUnlines(bs);
    GlueUnlines(a, bs);
  }

  lemma {:induction false} GlueUnlines(a: string, bs: seq<string>)
    requires |bs| > 0
    ensures a + Unlines(bs) == Unlines([a + bs[0]] + bs[1..])
  {
    var g := a + bs[0];
    var m := bs[1..];
    var ls := [g] + m;
    assert |ls| == |bs| && ls[0] == g && ls[1..] == m;
    if |bs| == 1 {
      assert Unlines(bs) == bs[0];
      assert Unlines(ls) == g;
    } else {
      var u := Unlines(m);
      assert Unlines(bs) == bs[0] + "\n" + u;
      assert Unlines(ls) == g + "\n" + u;
      assert a + (bs[0] + "\n" + u) == g + "\n" + u;
    }
  }

  /** The bullets part of the as-written listing is its glued bullet lines joined by breaks. */
  lemma AsWrittenBullets(s: LFGSession)
    ensures Bullet(s.author) + Join(Bullets(s.participants + s.addedParticipants), "\n") == Unlines(GluedBullets(s))
  {
    GlueFirst(s.author, s.participants + s.addedParticipants);
    assert Named(s) == [s.author] + (s.participants + s.addedParticipants);
  }

  lemma {:induction false} GlueFirst(a: nat, rest: seq<nat>)
    ensures Bullet(a) + Join(Bullets(rest), "\n") == Unlines(Glued([a] + rest))
  {
    var n := [a] + rest;
    if |rest| == 0 {
      assert Bullets(n) == [Bullet(a)];
    } else {
      var bs := Bullets(rest);
      GlueJoin(Bullet(a), bs);
      assert n[1] == rest[0] && n[2..] == rest[1..];
      assert bs[1..] == Bullets(n[2..]);
    }
  }

  /**
   * Written out, the frame around bullet lines `g` and an optional "others"
   * line is the frame text around the joined bullets and the "others" text.
   */
  lemma {:induction false} FrameWrittenOut(heading: string, footer: string, g: seq<string>, o: seq<string>, b: string, suffix: string)
    requires |g| > 0 && b == Unlines(g)
    requires |o| <= 1 && suffix == (if o == [] then "" else "\n" + o[0])
    ensures FrameText(heading, footer, b, suffix) == Unlines(Frame(heading, footer, g, o))
  {
    OthersAppend(g, o, suffix);
    FrameFoot(g + o, footer);
    FrameHead(heading, g + o + ["", footer]);
    assert ["", "", heading] + (g + o + ["", footer]) == Frame(heading, footer, g, o);
    RegroupTail("\n\n" + heading, b, suffix, footer);
  }

  lemma {:induction false} OthersAppend(g: seq<string>, o: seq<string>, suffix: string)
    requires |g| > 0
    requires |o| <= 1 && suffix == (if o == [] then "" else "\n" + o[0])
    ensures Unlines(g + o) == Unlines(g) + suffix
  {
    if o != [] {
      UnlinesAppend(g, o);
    } else {
      assert g + o == g;
    }
  }

  lemma {:induction false} FrameFoot(lines: seq<string>, footer: string)
    requires |lines| > 0
    ensures Unlines(lines + ["", footer]) == Unlines(lines) + "\n\n" + footer
  {
    UnlinesPair(footer);
    UnlinesAppend(lines, ["", footer]);
    BreakBreak(Unlines(lines), footer);
  }

  lemma UnlinesPair(footer: string)
    ensures Unlines(["", footer]) == "\n" + footer
  {
    var f := ["", footer];
    assert f[1..] == [footer];
  }

  lemma BreakBreak(u: string, f: string)
    ensures u + "\n" + ("\n" + f) == u + "\n\n" + f
  {
  }

  lemma {:induction false} FrameHead(heading: string, rest: seq<string>)
    requires |rest| > 0
    ensures Unlines(["", "", heading] + rest) == "\n\n" + heading + "\n" + Unlines(rest)
  {
    UnlinesHeading(heading);
    UnlinesAppend(["", "", heading], rest);
  }

  lemma UnlinesHeading(heading: string)
    ensures Unlines(["", "", heading]) == "\n\n" + heading
  {
    var hh := ["", "", heading];
    assert hh[1..] == ["", heading] && hh[1..][1..] == [heading];
    UnlinesPair(heading);
    BreakBreak("", heading);
  }

  lemma RegroupTail(p: string, b: string, o: string, f: string)
    ensures p + "\n" + b + o + "\n\n" + f == p + "\n" + (b + o + "\n\n" + f)
  {
  }

  /** The as-written listing is its lines written with a break between neighbours. */
  lemma AsWrittenUnlines(s: LFGSession)
    ensures ListingAsWritten(s) == Unlines(AsWrittenLines(s))
  {
    AsWrittenBullets(s);
    OthersLinesClean(s);
    FrameWrittenOut(HEADING, FOOTER, GluedBullets(s), OthersLines(s),
                    Bullet(s.author) + Join(Bullets(s.participants + s.addedParticipants), "\n"), OthersSuffix(s));
  }

  lemma GluedBulletsClean(s: LFGSession)
    ensures Clean(GluedBullets(s))
  {
    var n := Named(s);
    if |n| > 1 {
      BulletNoBreak(n[0]);
      BulletNoBreak(n[1]);
      BulletsClean(n[2..]);
      CleanAppend([Bullet(n[0]) + Bullet(n[1])], Bullets(n[2..]));
    } else {
      BulletsClean(n);
    }
  }

  lemma AsWrittenLinesClean(s: LFGSession)
    ensures Clean(AsWrittenLines(s))
  {
    GluedBulletsClean(s);
    OthersLinesClean(s);
    FrameConstantsNoBreak();
    FrameClean(HEADING, FOOTER, GluedBullets(s), OthersLines(s));
  }

  /**
   * The as-written listing's lines: two blank lines and the heading, the
   * bullets of the author, the joiners and the users mentioned at creation in
   * that order (the first two on one line), the line for the unnamed rest if
   * any, a blank line and the footer.  With nobody but the author named it is
   * the corrected listing.
   */
  lemma AsWrittenLayout(s: LFGSession)
    ensures Lines(ListingAsWritten(s)) == AsWrittenLines(s)
    ensures |Named(s)| > 1 ==>
      Lines(ListingAsWritten(s))
      == ["", "", HEADING, Bullet(s.author) + Bullet(Named(s)[1])] + Bullets(Named(s)[2..]) + OthersLines(s) + ["", FOOTER]
    ensures |Named(s)| == 1 ==> ListingAsWritten(s) == Listing(s) && Lines(ListingAsWritten(s)) == Lines(Listing(s))
  {
    AsWrittenUnlines(s);
    AsWrittenLinesClean(s);
    LinesUnlines(AsWrittenLines(s));
    if |Named(s)| == 1 {
      assert GluedBullets(s) == Bullets(Named(s));
    } else {
      var g := Bullet(s.author) + Bullet(Named(s)[1]);
      assert GluedBullets(s) == [g] + Bullets(Named(s)[2..]);
      FrameFirstLine(HEADING, FOOTER, g, Bullets(Named(s)[2..]), OthersLines(s));
    }
  }

  lemma FrameFirstLine(heading: string, footer: string, g: string, rest: seq<string>, o: seq<string>)
    ensures Frame(heading, footer, [g] + rest, o) == ["", "", heading, g] + rest + o + ["", footer]
  {
  }

  /**
   * The "and N other(s)" line follows the last bullet line exactly when fewer
   * people are named (the author, the joiners, the users mentioned at
   * creation) than counted, and N is the difference; otherwise the blank line
   * before the footer follows it.
   */
  lemma OthersLineShown(s: LFGSession)
    ensures var k := 3 + |Named(s)|;
      |Lines(Listing(s))| == k + 2 + (if |Named(s)| < Count(s) then 1 else 0)
      && Lines(Listing(s))[k] == (if |Named(s)| < Count(s) then OthersText(Count(s) - |Named(s)|) else "")
  {
    ListingOthersLine(s);
  }

  /** The same holds of the listing as written, whose first two bullets share a line. */
  lemma OthersLineShownAsWritten(s: LFGSession)
    ensures var k := if |Named(s)| > 1 then 2 + |Named(s)| else 4;
      |Lines(ListingAsWritten(s))| == k + 2 + (if |Named(s)| < Count(s) then 1 else 0)
      && Lines(ListingAsWritten(s))[k] == (if |Named(s)| < Count(s) then OthersText(Count(s) - |Named(s)|) else "")
  {
    AsWrittenOthersLine(s);
  }

  lemma ListingOthersLine(s: LFGSession)
    ensures var k := 3 + |Named(s)|;
      |Lines(Listing(s))| == k + 2 + |OthersLines(s)|
      && Lines(Listing(s))[k] == (if OthersLines(s) == [] then "" else OthersLines(s)[0])
  {
    ListingLinesRoundTrip(s);
    OthersLinesClean(s);
    FrameIndex(HEADING, FOOTER, Bullets(Named(s)), OthersLines(s));
  }

  lemma AsWrittenOthersLine(s: LFGSession)
    ensures var k := 3 + |GluedBullets(s)|;
      |GluedBullets(s)| == |Named(s)| - (if |Named(s)| > 1 then 1 else 0)
      && |Lines(ListingAsWritten(s))| == k + 2 + |OthersLines(s)|
      && Lines(ListingAsWritten(s))[k] == (if OthersLines(s) == [] then "" else OthersLines(s)[0])
  {
    AsWrittenLayout(s);
    OthersLinesClean(s);
    FrameIndex(HEADING, FOOTER, GluedBullets(s), OthersLines(s));
  }

  /** The line after the bullet lines of a frame is the "others" line, or else the blank line. */
  lemma FrameIndex(heading: string, footer: string, bs: seq<string>, o: seq<string>)
    requires |o| <= 1
    ensures var ls := Frame(heading, footer, bs, o);
      |ls| == 5 + |bs| + |o| && ls[3 + |bs|] == (if o == [] then "" else o[0])
  {
  }

  /**
   * As written, the author's bullet and the next named user's bullet share
   * the fourth line, so the rendered lines differ from the intended ones.
   */
  lemma ListingAsWrittenGluesBullets(s: LFGSession)
    requires |s.participants| + |s.addedParticipants| > 0
    ensures |Lines(ListingAsWritten(s))| > 3
    ensures Lines(ListingAsWritten(s))[3] == Bullet(s.author) + Bullet(Named(s)[1])
    ensures Lines(ListingAsWritten(s)) != Lines(Listing(s))
  {
    AsWrittenLayout(s);
    ListingLinesRoundTrip(s);
    assert Lines(Listing(s))[3] == Bullet(s.author);
    assert |Bullet(s.author) + Bullet(Named(s)[1])| > |Bullet(s.author)|;
  }

  // --------------------------------------------------------- status message

  function StatusTitle(s: LFGSession): string {
    "LFG Ping [" + Decimal(Count(s)) + "/" + Decimal(s.requiredNumber) + "]"
  }

  /** The first line of the status description: who is looking, and until when. */
  function StatusHeadline(s: LFGSession): string {
    Mention(s.author) + " is looking for a game! (expires: <t:" + s.expiry.display + ":R>)"
  }

  /** The status description lfg.rs sends: the headline, then the listing as it builds it. */
  function StatusDescription(s: LFGSession): string {
    StatusHeadline(s) + ListingAsWritten(s)
  }

  /**
   * The status description's lines: the headline, a blank line, the heading,
   * the as-written bullet lines, the "others" line if any, a blank line and
   * the footer.
   */
  lemma StatusDescriptionLines(s: LFGSession)
    ensures Lines(StatusDescription(s)) == [StatusHeadline(s), "", HEADING] + GluedBullets(s) + OthersLines(s) + ["", FOOTER]
  {
    AsWrittenUnlines(s);
    AsWrittenLinesClean(s);
    HeadlineNoBreak(s);
    HeadlineOverFrame(StatusHeadline(s), HEADING, FOOTER, GluedBullets(s), OthersLines(s));
  }

  /** A headline written before a frame takes the place of its first blank line. */
  lemma {:induction false} HeadlineOverFrame(h: string, heading: string, footer: string, body: seq<string>, o: seq<string>)
    requires NoBreak(h) && Clean(Frame(heading, footer, body, o))
    ensures Lines(h + Unlines(Frame(heading, footer, body, o))) == [h, "", heading] + body + o + ["", footer]
  {
    PrependLine(h, Frame(heading, footer, body, o));
    assert Frame(heading, footer, body, o)[1..] == ["", heading] + body + o + ["", footer];
  }

  lemma HeadlineNoBreak(s: LFGSession)
    ensures NoBreak(StatusHeadline(s))
  {
    DigitsNoBreak(Decimal(s.author));
  }

  /** A line without a break written before lines that start with a blank one takes that blank line's place. */
  lemma {:induction false} PrependLine(h: string, ls: seq<string>)
    requires NoBreak(h) && |ls| > 1 && ls[0] == "" && Clean(ls)
    ensures Lines(h + Unlines(ls)) == [h] + ls[1..]
  {
    assert ls == [""] + ls[1..];
    UnlinesAppend([""], ls[1..]);
    assert h + Unlines(ls) == h + "\n" + Unlines(ls[1..]);
    LinesBreak(h, Unlines(ls[1..]));
    assert Clean(ls[1..]);
    LinesUnlines(ls[1..]);
  }

  function StatusEmbed(s: LFGSession): Embed {
    Embed(STATUS_COLOR, StatusTitle(s), StatusDescription(s))
  }

  /** The content line of a new status message: the facade role id, then the real role id as a spoiler. */
  function StatusContent(s: LFGSession): string {
    Decimal(s.facadeTag) + " ||" + Decimal(s.initialTag) + "||"
  }

  /** The uuid crate's hyphenated form: 8-4-4-4-12 lower-case hexadecimal digits. */
  function UuidText(u: Uuid): (t: string)
    ensures |t| == 36
  {
    HexBytes(u[..4]) + "-" + HexBytes(u[4..6]) + "-" + HexBytes(u[6..8]) + "-"
    + HexBytes(u[8..10]) + "-" + HexBytes(u[10..])
  }

  function ParseUuid(t: string): Option<Uuid> {
    if |t| != 36 || t[8] != '-' || t[13] != '-' || t[18] != '-' || t[23] != '-' then None
    else match UnHex(t[..8] + t[9..13] + t[14..18] + t[19..23] + t[24..])
      case Some(bs) => if |bs| == 16 then Some(bs) else None
      case None => None
  }

  /** The correlation token of the join button: `lfg-` and the session id. */
  function JoinButtonId(u: Uuid): string {
    "lfg-" + UuidText(u)
  }

  function ParseJoinButtonId(id: string): Option<Uuid> {
    if |id| >= 4 && id[..4] == "lfg-" then ParseUuid(id[4..]) else None
  }

  function StatusComponents(s: LFGSession): seq<Component> {
    [ActionRow([Button(Some(JoinButtonId(s.uuid)), false, Some(JOIN_LABEL), Primary)])]
  }

  lemma UuidTextDigits(u: Uuid)
    ensures var t := UuidText(u);
      t[8] == '-' && t[13] == '-' && t[18] == '-' && t[23] == '-'
      && t[..8] + t[9..13] + t[14..18] + t[19..23] + t[24..]
         == HexBytes(u[..4]) + HexBytes(u[4..6]) + HexBytes(u[6..8]) + HexBytes(u[8..10]) + HexBytes(u[10..])
  {
    var t := UuidText(u);
    var a, b, c, d, e := HexBytes(u[..4]), HexBytes(u[4..6]), HexBytes(u[6..8]), HexBytes(u[8..10]), HexBytes(u[10..]);
    assert |a| == 8 && |b| == 4 && |c| == 4 && |d| == 4 && |e| == 12;
    assert t == a + "-" + b + "-" + c + "-" + d + "-" + e;
    assert t[..8] == a;
    assert t[9..13] == b;
    assert t[14..18] == c;
    assert t[19..23] == d;
    assert t[24..] == e;
  }

  lemma UuidHexConcat(u: Uuid)
    ensures HexBytes(u[..4]) + HexBytes(u[4..6]) + HexBytes(u[6..8]) + HexBytes(u[8..10]) + HexBytes(u[10..])
            == HexBytes(u)
  {
    HexBytesAppend(u[..4], u[4..6]);
    HexBytesAppend(u[..4] + u[4..6], u[6..8]);
    HexBytesAppend(u[..4] + u[4..6] + u[6..8], u[8..10]);
    HexBytesAppend(u[..4] + u[4..6] + u[6..8] + u[8..10], u[10..]);
    assert u[..4] + u[4..6] + u[6..8] + u[8..10] + u[10..] == u;
  }

  /** The join button's token names its session: reading the token back gives the session id. */
  lemma JoinButtonIdRoundTrip(u: Uuid)
    ensures ParseJoinButtonId(JoinButtonId(u)) == Some(u)
  {
    var t := UuidText(u);
    UuidTextDigits(u);
    UuidHexConcat(u);
    UnHexRoundTrip(u);
    assert JoinButtonId(u)[4..] == t;
  }

  /** Different sessions get different join buttons. */
  lemma JoinButtonIdInjective(u: Uuid, v: Uuid)
    requires JoinButtonId(u) == JoinButtonId(v)
    ensures u == v
  {
    JoinButtonIdRoundTrip(u);
    JoinButtonIdRoundTrip(v);
  }

  // ----------------------------------------------------- ready announcement

  /** The author, the joiners and the users mentioned at creation, as lfg.rs writes them. */
  function MentionList(s: LFGSession): string {
    Mention(s.author) + Join(Mentions(s.participants + s.addedParticipants), " ")
  }

  /** The ready announcement's content: the mention list as a spoiler. */
  function ReadyContent(s: LFGSession): string {
    "||" + MentionList(s) + "||"
  }

  function ReadyEmbed(s: LFGSession): Embed {
    Embed(STATUS_COLOR, "Everyone's ready! [" + Decimal(Count(s)) + "/" + Decimal(s.requiredNumber) + "]",
          READY_DESCRIPTION)
  }

  /** The text inside a spoiler `||...||`. */
  function Unspoiler(t: string): Option<string> {
    if |t| >= 4 && t[..2] == "||" && t[|t| - 2..] == "||" then Some(t[2..|t| - 2]) else None
  }

  lemma SpoilerRoundTrip(m: string)
    ensures Unspoiler("||" + m + "||") == Some(m)
  {
    var c := "||" + m + "||";
    assert c[..2] == "||" && c[|c| - 2..] == "||" && c[2..|c| - 2] == m;
  }

  /**
   * The ready announcement is a spoiler whose mentions name exactly the
   * author, the joiners and the users mentioned at creation, in that order.
   */
  lemma ReadyMentionsRoundTrip(s: LFGSession)
    ensures Unspoiler(ReadyContent(s)) == Some(MentionList(s))
    ensures ParseMentions(MentionList(s)) == Some(Named(s))
  {
    SpoilerRoundTrip(MentionList(s));
    var rest := s.participants + s.addedParticipants;
    ParseJoinedMentions(rest);
    ParseMentionsCons(s.author, Join(Mentions(rest), " "));
    assert [s.author] + rest == Named(s);
  }

  // ------------------------------------------------------- expired messages

  /** Rust's `%` on integers: the remainder takes the sign of the dividend. */
  function TruncatedRem(a: int, b: int): (r: int)
    requires b > 0
    ensures -b < r < b
    ensures a >= 0 ==> r == a % b
  {
    if a >= 0 then a % b else -((-a) % b)
  }

  /**
   * The flavour-text index `(now_ms % 4) as usize`.  A negative remainder
   * becomes a number of at least 2^64 - 3 under `as usize`, which is out of
   * bounds: None stands for the panic that indexing then raises.
   */
  function ExpiredIndex(nowMs: i64): (r: Option<nat>)
    ensures r.Some? ==> r.value < |EXPIRED_MESSAGES|
    ensures nowMs >= 0 ==> r == Some(nowMs % |EXPIRED_MESSAGES|)
    ensures r.None? <==> (nowMs < 0 && nowMs % |EXPIRED_MESSAGES| != 0)
  {
    var rem := TruncatedRem(nowMs, |EXPIRED_MESSAGES|);
    if rem >= 0 then Some(rem) else None
  }

  function StaleEmbed(index: nat): Embed
    requires index < |EXPIRED_MESSAGES|
  {
    Embed(EXPIRED_COLOR, "Expired ping", EXPIRED_MESSAGES[index])
  }

  function CancelledEmbed(author: UserId): Embed {
    Embed(EXPIRED_COLOR, "Cancelled ping",
          "No, that wasn't a ghost... it just looks like " + Mention(author) + " backed out!")
  }
}
