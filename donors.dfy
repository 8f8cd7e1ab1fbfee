/** Donor extraction (donation_checker.js, fetchDonationData): which members
    of a guild gave a positive amount, and what one guild's fetch yields.
    The two HTTP requests and the JSON decoding are not modelled; the fetch
    works on the already-decoded responses. */
module Donors {
  import opened Wrappers

  type MemberId = string
  type GuildId = string

  /** One decoded entry of the donation ledger: the integer that `parseInt`
      reads from it, or Malformed where `parseInt` gives NaN. */
  datatype Entry = Amount(value: int) | Malformed

  /** The donation ledger, member id to entry; a missing id donated nothing. */
  type Ledger = map<MemberId, Entry>

  /** A record of the guild's member list: the character id and the decoded
      `info` object, field name to value. */
  datatype Member = Member(id: MemberId, info: map<string, string>)

  /** The decoded guild-info response. `data` is the guild metadata, None
      when the field is absent or empty; `donate` is the ledger, None when
      that field is absent or empty. */
  datatype GuildInfo = GuildInfo(data: Option<map<string, string>>, donate: Option<Ledger>)

  /** Both responses of one guild's fetch: the member list and the guild info. */
  datatype Response = Response(members: seq<Member>, info: GuildInfo)

  /** What a successful fetch returns. */
  datatype FetchResult = FetchResult(
    guildId: GuildId,
    name: Option<string>,
    donatedIds: map<MemberId, bool>,
    members: seq<Member>)

  /** A member is a donor when the ledger holds an entry for it that reads as
      a positive integer. A missing entry counts as 0 and a malformed one as
      NaN, and neither makes a donor. */
  predicate IsDonor(ledger: Ledger, id: MemberId) {
    id in ledger && ledger[id].Amount? && ledger[id].value > 0
  }

  function MemberIds(members: seq<Member>): set<MemberId> {
    set i | 0 <= i < |members| :: members[i].id
  }

  /** The donor map a member list and a ledger call for: every listed member
      whose amount is positive, mapped to true. */
  function DonorMap(members: seq<Member>, ledger: Ledger): map<MemberId, bool> {
    map id | id in MemberIds(members) && IsDonor(ledger, id) :: true
  }

  /** A field of a decoded JSON object; None stands for `undefined`. */
  function Field(obj: map<string, string>, key: string): Option<string> {
    if key in obj then Some(obj[key]) else None
  }

  /** The ledger a fetch works with: the decoded `donate` field, or an empty
      ledger when that field is absent or empty. */
  function LedgerOf(donate: Option<Ledger>): Ledger {
    donate.GetOr(map[])
  }

  /** The outcome of fetchDonationData for one guild. `response` is None
      when a request or a decoding failed. */
  function FetchOutcome(guildId: GuildId, response: Option<Response>): Option<FetchResult> {
    match response
    case None => None
    case Some(Response(members, GuildInfo(data, donate))) =>
      if data.None? then None
      else Some(FetchResult(guildId, Field(data.value, "name"),
                            DonorMap(members, LedgerOf(donate)), members))
  }

  /** The `forEach` over the member list that fills `dailyDonatedIds`. */
  method ExtractDonors(members: seq<Member>, ledger: Ledger) returns (donated: map<MemberId, bool>)
    ensures forall id :: id in donated <==> id in MemberIds(members) && IsDonor(ledger, id)
    ensures forall id :: id in donated ==> donated[id]
    ensures donated == DonorMap(members, ledger)
  {
    donated := map[];
    var i := 0;
    while i < |members|
      invariant 0 <= i <= |members|
      invariant donated == DonorMap(members[..i], ledger)
    {
      var id := members[i].id;
      assert MemberIds(members[..i + 1]) == MemberIds(members[..i]) + {id} by {
        assert forall j :: 0 <= j < i ==> members[..i + 1][j] == members[..i][j];
      }
      if IsDonor(ledger, id) {
        donated := donated[id := true];
      }
      i := i + 1;
    }
    assert members[..i] == members;
  }

  /** fetchDonationData on a fetched response: null when the fetch failed or
      the guild info has no data, otherwise the guild's donors and members. */
  method FetchDonationData(guildId: GuildId, response: Option<Response>) returns (r: Option<FetchResult>)
    ensures r.None? <==> response.None? || response.value.info.data.None?
    ensures r.Some? ==> r.value.guildId == guildId && r.value.members == response.value.members
    ensures r.Some? ==> forall id :: id in r.value.donatedIds <==>
      id in MemberIds(response.value.members) && IsDonor(LedgerOf(response.value.info.donate), id)
    ensures r == FetchOutcome(guildId, response)
  {
    if response.None? || response.value.info.data.None? {
      return None;
    }
    var members := response.value.members;
    var donated := ExtractDonors(members, LedgerOf(response.value.info.donate));
    r := Some(FetchResult(guildId, Field(response.value.info.data.value, "name"), donated, members));
  }

  /** Only a positive amount makes a donor; amounts collapse to presence, so
      two ledgers that agree on who gave something give the same map
      (2 and 200 are alike). */
  lemma DonorMapDependsOnlyOnPositivity(members: seq<Member>, l1: Ledger, l2: Ledger)
    requires forall id :: id in MemberIds(members) ==> (IsDonor(l1, id) <==> IsDonor(l2, id))
    ensures DonorMap(members, l1) == DonorMap(members, l2)
  {
  }

  /** Every key of a donor map is a listed member and every value is true. */
  lemma DonorMapShape(members: seq<Member>, ledger: Ledger)
    ensures DonorMap(members, ledger).Keys <= MemberIds(members)
    ensures forall id :: id in DonorMap(members, ledger) ==> DonorMap(members, ledger)[id]
  {
  }

  /** Ledger entries for ids that are not on the member list are ignored. */
  lemma NonMembersIgnored(members: seq<Member>, ledger: Ledger, id: MemberId, e: Entry)
    requires id !in MemberIds(members)
    ensures DonorMap(members, ledger[id := e]) == DonorMap(members, ledger)
  {
  }

  /** An absent `donate` field means an empty ledger and so no donors. */
  lemma AbsentLedgerNoDonors(members: seq<Member>)
    ensures DonorMap(members, LedgerOf(None)) == map[]
  {
  }
}
