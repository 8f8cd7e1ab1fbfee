/** The donation history document and the daily run that merges each
    guild's fetch into it (donation_checker.js, run). The document is
    guild id -> { month key -> { date key -> donor map }, members: roster }. */
module History {
  import opened Wrappers
  import opened DateKeys
  import opened Donors

  /** One roster entry `{id, name}`; the name is None when the member's
      info object has no `name` field. */
  datatype RosterEntry = RosterEntry(id: MemberId, name: Option<string>)

  /** One guild's entry of the history: its month tables and, once a merge
      has written it, its roster. */
  datatype GuildRecord = GuildRecord(
    months: map<string, map<string, map<MemberId, bool>>>,
    members: Option<seq<RosterEntry>>)

  type Document = map<GuildId, GuildRecord>

  /** One guild's turn of the run: the guild id and what its fetch gave. */
  datatype GuildOutcome = GuildOutcome(guildId: GuildId, data: Option<FetchResult>)

  /** The roster stored for a guild: one `{id, name}` entry per fetched
      member, in the fetched order, the name taken from the member's decoded
      info. */
  function Roster(members: seq<Member>): (roster: seq<RosterEntry>)
    ensures |roster| == |members|
    ensures forall i :: 0 <= i < |roster| ==>
      roster[i].id == members[i].id && roster[i].name == Field(members[i].info, "name")
  {
    seq(|members|, i requires 0 <= i < |members| => RosterEntry(members[i].id, Field(members[i].info, "name")))
  }

  /** The merge guard: the fetch succeeded and found at least one donor. */
  predicate HasDonors(data: Option<FetchResult>) {
    data.Some? && |data.value.donatedIds| > 0
  }

  function Lookup(doc: Document, g: GuildId): Option<GuildRecord> {
    if g in doc then Some(doc[g]) else None
  }

  /** A guild's record after today's donors were stored: missing levels are
      created, today's entry is set and the roster is replaced. */
  function MergeRecord(rec: Option<GuildRecord>, monthKey: string, today: string, result: FetchResult): GuildRecord {
    var base := rec.GetOr(GuildRecord(map[], None));
    var month := if monthKey in base.months then base.months[monthKey] else map[];
    GuildRecord(base.months[monthKey := month[today := result.donatedIds]], Some(Roster(result.members)))
  }

  /** The merge of one guild's fetch into the document. */
  function MergeGuild(doc: Document, g: GuildId, monthKey: string, today: string, data: Option<FetchResult>): Document {
    if HasDonors(data) then doc[g := MergeRecord(Lookup(doc, g), monthKey, today, data.value)] else doc
  }

  /** The document after the run has merged every outcome, in order. */
  function RunAll(doc: Document, outcomes: seq<GuildOutcome>, monthKey: string, today: string): Document
    decreases |outcomes|
  {
    if outcomes == [] then doc
    else
      var last := outcomes[|outcomes| - 1];
      MergeGuild(RunAll(doc, outcomes[..|outcomes| - 1], monthKey, today), last.guildId, monthKey, today, last.data)
  }

  /** The last fetch of guild g in the run that found donors. */
  function LastDonorsFor(outcomes: seq<GuildOutcome>, g: GuildId): Option<FetchResult>
    decreases |outcomes|
  {
    if outcomes == [] then None
    else
      var last := outcomes[|outcomes| - 1];
      if last.guildId == g && HasDonors(last.data) then last.data
      else LastDonorsFor(outcomes[..|outcomes| - 1], g)
  }

  /** The run's outcomes: each guild paired with its fetch. */
  function Outcomes(guildIds: seq<GuildId>, responses: seq<Option<Response>>): seq<GuildOutcome>
    requires |guildIds| == |responses|
  {
    seq(|guildIds|, i requires 0 <= i < |guildIds| =>
      GuildOutcome(guildIds[i], FetchOutcome(guildIds[i], responses[i])))
  }

  /** One more turn of the run is one more merge. */
  lemma RunAllStep(doc: Document, outcomes: seq<GuildOutcome>, i: nat, monthKey: string, today: string)
    requires i < |outcomes|
    ensures RunAll(doc, outcomes[..i + 1], monthKey, today)
         == MergeGuild(RunAll(doc, outcomes[..i], monthKey, today), outcomes[i].guildId, monthKey, today, outcomes[i].data)
  {
    assert outcomes[..i + 1][..i] == outcomes[..i];
  }

  /** A failed fetch or one without donors leaves the document exactly as it was. */
  lemma MergeWithoutDonorsIsNoOp(doc: Document, g: GuildId, monthKey: string, today: string, data: Option<FetchResult>)
    requires !HasDonors(data)
    ensures MergeGuild(doc, g, monthKey, today, data) == doc
  {
  }

  /** After a merge with donors, today's entry of the guild's month is the
      donor map, the roster is the fetched member list, no date, month or
      guild appears other than these, and every other one keeps its value. */
  lemma MergeWithDonors(doc: Document, g: GuildId, monthKey: string, today: string, data: Option<FetchResult>)
    requires HasDonors(data)
    ensures var r := MergeGuild(doc, g, monthKey, today, data);
      var oldMonths := if g in doc then doc[g].months else map[];
      var oldDays := if monthKey in oldMonths then oldMonths[monthKey] else map[];
      && g in r && monthKey in r[g].months && today in r[g].months[monthKey]
      && r[g].months[monthKey][today] == data.value.donatedIds
      && r[g].members == Some(Roster(data.value.members))
      && r.Keys == doc.Keys + {g}
      && (forall h :: h in doc && h != g ==> r[h] == doc[h])
      && r[g].months.Keys == oldMonths.Keys + {monthKey}
      && (forall m :: m in oldMonths && m != monthKey ==> r[g].months[m] == oldMonths[m])
      && r[g].months[monthKey].Keys == oldDays.Keys + {today}
      && (forall d :: d in oldDays && d != today ==> r[g].months[monthKey][d] == oldDays[d])
  {
  }

  /** A later merge with donors for the same guild and day overwrites an
      earlier one completely. */
  lemma MergeRecordOverwrites(rec: Option<GuildRecord>, monthKey: string, today: string, x: FetchResult, y: FetchResult)
    ensures MergeRecord(Some(MergeRecord(rec, monthKey, today, x)), monthKey, today, y)
         == MergeRecord(rec, monthKey, today, y)
  {
    var base := rec.GetOr(GuildRecord(map[], None));
    var month := if monthKey in base.months then base.months[monthKey] else map[];
    var first := MergeRecord(rec, monthKey, today, x);
    assert first.months == base.months[monthKey := month[today := x.donatedIds]];
    assert month[today := x.donatedIds][today := y.donatedIds] == month[today := y.donatedIds];
    assert first.months[monthKey := month[today := y.donatedIds]]
        == base.months[monthKey := month[today := y.donatedIds]];
  }

  /** Merging the same fetch twice on the same day is the same as merging it once. */
  lemma MergeIdempotent(doc: Document, g: GuildId, monthKey: string, today: string, data: Option<FetchResult>)
    ensures MergeGuild(MergeGuild(doc, g, monthKey, today, data), g, monthKey, today, data)
         == MergeGuild(doc, g, monthKey, today, data)
  {
    if HasDonors(data) {
      MergeRecordOverwrites(Lookup(doc, g), monthKey, today, data.value, data.value);
    }
  }

  /** What the run leaves for guild g: its old entry when none of its fetches
      found donors, otherwise the old entry merged with its last such fetch. */
  lemma {:induction false} RunAllAt(doc: Document, outcomes: seq<GuildOutcome>, monthKey: string, today: string, g: GuildId)
    ensures Lookup(RunAll(doc, outcomes, monthKey, today), g) ==
      match LastDonorsFor(outcomes, g)
      case None => Lookup(doc, g)
      case Some(result) => Some(MergeRecord(Lookup(doc, g), monthKey, today, result))
  {
    if outcomes != [] {
      var prefix := outcomes[..|outcomes| - 1];
      var last := outcomes[|outcomes| - 1];
      RunAllAt(doc, prefix, monthKey, today, g);
      if last.guildId == g && HasDonors(last.data) {
        match LastDonorsFor(prefix, g)
        case None =>
        case Some(earlier) =>
          MergeRecordOverwrites(Lookup(doc, g), monthKey, today, earlier, last.data.value);
      }
    }
  }

  /** A guild the run does not check keeps its entry (or its absence). */
  lemma RunLeavesOtherGuilds(doc: Document, outcomes: seq<GuildOutcome>, monthKey: string, today: string, g: GuildId)
    requires forall i :: 0 <= i < |outcomes| ==> outcomes[i].guildId != g
    ensures Lookup(RunAll(doc, outcomes, monthKey, today), g) == Lookup(doc, g)
  {
    NoDonorsWithoutOutcome(outcomes, g);
    RunAllAt(doc, outcomes, monthKey, today, g);
  }

  lemma {:induction false} NoDonorsWithoutOutcome(outcomes: seq<GuildOutcome>, g: GuildId)
    requires forall i :: 0 <= i < |outcomes| ==> outcomes[i].guildId != g
    ensures LastDonorsFor(outcomes, g) == None
  {
    if outcomes != [] {
      NoDonorsWithoutOutcome(outcomes[..|outcomes| - 1], g);
    }
  }

  /** A run in which no fetch succeeded with donors leaves the document unchanged. */
  lemma {:induction false} RunWithoutDonorsIsNoOp(doc: Document, outcomes: seq<GuildOutcome>, monthKey: string, today: string)
    requires forall i :: 0 <= i < |outcomes| ==> !HasDonors(outcomes[i].data)
    ensures RunAll(doc, outcomes, monthKey, today) == doc
  {
    if outcomes != [] {
      RunWithoutDonorsIsNoOp(doc, outcomes[..|outcomes| - 1], monthKey, today);
    }
  }

  /** After the run, a guild's roster is the member list of its last fetch
      with donors: nothing of an earlier roster survives. */
  lemma RosterIsLatest(doc: Document, outcomes: seq<GuildOutcome>, monthKey: string, today: string, g: GuildId, result: FetchResult)
    requires LastDonorsFor(outcomes, g) == Some(result)
    ensures var r := RunAll(doc, outcomes, monthKey, today);
      && g in r && r[g].members == Some(Roster(result.members))
      && monthKey in r[g].months && today in r[g].months[monthKey]
      && r[g].months[monthKey][today] == result.donatedIds
  {
    RunAllAt(doc, outcomes, monthKey, today, g);
  }

  /** Running the job twice on one day with the same fetches gives the same
      document as running it once. */
  lemma RunIdempotent(doc: Document, outcomes: seq<GuildOutcome>, monthKey: string, today: string)
    ensures RunAll(RunAll(doc, outcomes, monthKey, today), outcomes, monthKey, today)
         == RunAll(doc, outcomes, monthKey, today)
  {
    var once := RunAll(doc, outcomes, monthKey, today);
    var twice := RunAll(once, outcomes, monthKey, today);
    forall g
      ensures Lookup(twice, g) == Lookup(once, g)
    {
      RunAllAt(doc, outcomes, monthKey, today, g);
      RunAllAt(once, outcomes, monthKey, today, g);
      match LastDonorsFor(outcomes, g)
      case None =>
      case Some(result) =>
        MergeRecordOverwrites(Lookup(doc, g), monthKey, today, result, result);
    }
    assert forall g :: g in twice <==> g in once by {
      forall g ensures g in twice <==> g in once {
        assert Lookup(twice, g) == Lookup(once, g);
      }
    }
    forall g | g in once
      ensures twice[g] == once[g]
    {
      assert Lookup(twice, g) == Lookup(once, g);
    }
  }

  /** The in-memory history document that the run updates in place. */
  class DonationHistory {
    var guilds: Document

    /** loadExistingHistory: the stored document, or an empty one when the
        file was missing or did not parse. */
    constructor Load(stored: Option<Document>)
      ensures guilds == stored.GetOr(map[])
      ensures stored.None? ==> guilds == map[]
    {
      guilds := stored.GetOr(map[]);
    }

    /** The merge block of run for one guild's fetch. */
    method Merge(g: GuildId, monthKey: string, today: string, data: Option<FetchResult>)
      modifies this
      ensures guilds == MergeGuild(old(guilds), g, monthKey, today, data)
    {
      if data.Some? && |data.value.donatedIds| > 0 {
        var rec := if g in guilds then guilds[g] else GuildRecord(map[], None);
        var month := if monthKey in rec.months then rec.months[monthKey] else map[];
        rec := rec.(months := rec.months[monthKey := month[today := data.value.donatedIds]]);
        rec := rec.(members := Some(Roster(data.value.members)));
        assert rec == MergeRecord(Lookup(guilds, g), monthKey, today, data.value);
        guilds := guilds[g := rec];
      }
    }

    /** run: fetch and merge each guild in turn, with the keys of the given
        calendar day. `responses[i]` is what guild `guildIds[i]`'s requests
        returned (None when they failed). */
    method Run(year: int, month: int, day: int, guildIds: seq<GuildId>, responses: seq<Option<Response>>)
      requires |guildIds| == |responses|
      modifies this
      ensures guilds == RunAll(old(guilds), Outcomes(guildIds, responses), MonthKey(year, month), DateKey(year, month, day))
    {
      var today := DateKey(year, month, day);
      var monthKey := MonthKey(year, month);
      ghost var outcomes := Outcomes(guildIds, responses);
      var i := 0;
      while i < |guildIds|
        invariant 0 <= i <= |guildIds|
        invariant guilds == RunAll(old(guilds), outcomes[..i], monthKey, today)
      {
        var data := FetchDonationData(guildIds[i], responses[i]);
        RunAllStep(old(guilds), outcomes, i, monthKey, today);
        Merge(guildIds[i], monthKey, today, data);
        i := i + 1;
      }
      assert outcomes[..i] == outcomes;
    }
  }
}
