/**
 * The pure parts of the two synchronisation dashboards (partners and trade
 * types): the records they receive from the server, the active-contract
 * filter, the tally of a "sync all" result list, the statistics index keyed
 * by system id, the contract lookup the auto-sync timer performs, and the
 * duration formatter.
 */
module Dashboard {

  import opened Opt
  import opened Decimal

  /** A contract (tenant) as the contracts endpoint returns it. */
  datatype Contract = Contract(idEmpresa: int, empresa: string, cnpj: string, ativo: bool)

  /** Per-tenant record counts as the statistics endpoint returns them. */
  datatype Stat = Stat(
    idSistema: int,
    totalRegistros: int,
    registrosAtivos: int,
    registrosDeletados: int,
    ultimaSincronizacao: string)

  /** Outcome of one tenant's run, as the "sync all" endpoint returns it in a list. */
  datatype SyncResult = SyncResult(
    success: bool,
    idSistema: int,
    empresa: string,
    totalRegistros: int,
    registrosInseridos: int,
    registrosAtualizados: int,
    registrosDeletados: int,
    dataInicio: string,
    dataFim: string,
    duracao: int,
    erro: Option<string>)

  // ---------------------------------------------------------------------------
  // Active-contract filter: the page keeps only the contracts marked active.

  function ActiveContracts(cs: seq<Contract>): (r: seq<Contract>)
    ensures |r| <= |cs|
    ensures forall c :: c in r <==> c in cs && c.ativo
    decreases |cs|
  {
    if cs == [] then []
    else (if cs[0].ativo then [cs[0]] else []) + ActiveContracts(cs[1..])
  }

  /** The filter works element by element: filtering a concatenation filters each part, in order. */
  lemma {:induction false} ActiveContractsAppend(a: seq<Contract>, b: seq<Contract>)
    ensures ActiveContracts(a + b) == ActiveContracts(a) + ActiveContracts(b)
    decreases |a|
  {
    if a == [] {
      assert a + b == b;
    } else {
      assert (a + b)[0] == a[0];
      assert (a + b)[1..] == a[1..] + b;
      ActiveContractsAppend(a[1..], b);
    }
  }

  /** Filtering the filtered list changes nothing. */
  lemma {:induction false} ActiveContractsIdempotent(cs: seq<Contract>)
    ensures ActiveContracts(ActiveContracts(cs)) == ActiveContracts(cs)
    decreases |cs|
  {
    if cs != [] {
      var head := if cs[0].ativo then [cs[0]] else [];
      ActiveContractsAppend(head, ActiveContracts(cs[1..]));
      ActiveContractsIdempotent(cs[1..]);
    }
  }

  // ---------------------------------------------------------------------------
  // Tally of a "sync all" result list: how many runs succeeded, how many failed.

  function Succeeded(rs: seq<SyncResult>): (r: seq<SyncResult>)
    ensures forall x :: x in r <==> x in rs && x.success
    decreases |rs|
  {
    if rs == [] then []
    else (if rs[0].success then [rs[0]] else []) + Succeeded(rs[1..])
  }

  function Failed(rs: seq<SyncResult>): (r: seq<SyncResult>)
    ensures forall x :: x in r <==> x in rs && !x.success
    decreases |rs|
  {
    if rs == [] then []
    else (if rs[0].success then [] else [rs[0]]) + Failed(rs[1..])
  }

  /** Every result is counted exactly once, as a success or as a failure. */
  lemma {:induction false} SucceededFailedPartition(rs: seq<SyncResult>)
    ensures |Succeeded(rs)| + |Failed(rs)| == |rs|
    decreases |rs|
  {
    if rs != [] {
      SucceededFailedPartition(rs[1..]);
    }
  }

  datatype Tally = Tally(successes: nat, failures: nat)

  /** The positions of the successful results. */
  function SuccessIndices(rs: seq<SyncResult>): set<int>
  {
    set i | 0 <= i < |rs| && rs[i].success
  }

  /** The positions of the failed results. */
  function FailureIndices(rs: seq<SyncResult>): set<int>
  {
    set i | 0 <= i < |rs| && !rs[i].success
  }

  /** Splitting off the last result splits its position off the index sets. */
  lemma IndicesSplitLast(rs: seq<SyncResult>)
    requires rs != []
    ensures var n := |rs| - 1;
            && SuccessIndices(rs) == SuccessIndices(rs[..n]) + (if rs[n].success then {n} else {})
            && FailureIndices(rs) == FailureIndices(rs[..n]) + (if rs[n].success then {} else {n})
            && n !in SuccessIndices(rs[..n]) && n !in FailureIndices(rs[..n])
  {
    var n := |rs| - 1;
    assert forall i :: 0 <= i < n ==> rs[..n][i] == rs[i];
  }

  /** Appending one result adds one to the success filter iff that result succeeded. */
  lemma SucceededSnoc(p: seq<SyncResult>, x: SyncResult)
    ensures |Succeeded(p + [x])| == |Succeeded(p)| + (if x.success then 1 else 0)
  {
    SucceededAppend(p, [x]);
    assert [x][1..] == [];
  }

  /** Appending one result adds one to the failure filter iff that result failed. */
  lemma FailedSnoc(p: seq<SyncResult>, x: SyncResult)
    ensures |Failed(p + [x])| == |Failed(p)| + (if x.success then 0 else 1)
  {
    FailedAppend(p, [x]);
    assert [x][1..] == [];
  }

  /** The success filter keeps one element per successful position. */
  lemma {:induction false} SucceededCountsSuccesses(rs: seq<SyncResult>)
    ensures |Succeeded(rs)| == |SuccessIndices(rs)|
    decreases |rs|
  {
    if rs != [] {
      var p := rs[..|rs| - 1];
      SucceededCountsSuccesses(p);
      IndicesSplitLast(rs);
      SucceededSnoc(p, rs[|rs| - 1]);
      assert p + [rs[|rs| - 1]] == rs;
    }
  }

  /** The failure filter keeps one element per failed position. */
  lemma {:induction false} FailedCountsFailures(rs: seq<SyncResult>)
    ensures |Failed(rs)| == |FailureIndices(rs)|
    decreases |rs|
  {
    if rs != [] {
      var p := rs[..|rs| - 1];
      FailedCountsFailures(p);
      IndicesSplitLast(rs);
      FailedSnoc(p, rs[|rs| - 1]);
      assert p + [rs[|rs| - 1]] == rs;
    }
  }

  function TallyResults(rs: seq<SyncResult>): (t: Tally)
    ensures t.successes == |SuccessIndices(rs)|
    ensures t.failures == |FailureIndices(rs)|
    ensures t.successes + t.failures == |rs|
    ensures t.failures == 0 <==> forall i :: 0 <= i < |rs| ==> rs[i].success
    ensures t.successes == 0 <==> forall i :: 0 <= i < |rs| ==> !rs[i].success
  {
    SucceededCountsSuccesses(rs);
    FailedCountsFailures(rs);
    SucceededFailedPartition(rs);
    assert |Failed(rs)| > 0 ==> Failed(rs)[0] in rs;
    assert |Succeeded(rs)| > 0 ==> Succeeded(rs)[0] in rs;
    Tally(|Succeeded(rs)|, |Failed(rs)|)
  }

  lemma {:induction false} SucceededAppend(a: seq<SyncResult>, b: seq<SyncResult>)
    ensures Succeeded(a + b) == Succeeded(a) + Succeeded(b)
    decreases |a|
  {
    if a == [] {
      assert a + b == b;
    } else {
      assert (a + b)[0] == a[0];
      assert (a + b)[1..] == a[1..] + b;
      SucceededAppend(a[1..], b);
    }
  }

  lemma {:induction false} FailedAppend(a: seq<SyncResult>, b: seq<SyncResult>)
    ensures Failed(a + b) == Failed(a) + Failed(b)
    decreases |a|
  {
    if a == [] {
      assert a + b == b;
    } else {
      assert (a + b)[0] == a[0];
      assert (a + b)[1..] == a[1..] + b;
      FailedAppend(a[1..], b);
    }
  }

  /** Tallies of consecutive result lists add up. */
  lemma TallyAppend(a: seq<SyncResult>, b: seq<SyncResult>)
    ensures TallyResults(a + b).successes == TallyResults(a).successes + TallyResults(b).successes
    ensures TallyResults(a + b).failures == TallyResults(a).failures + TallyResults(b).failures
  {
    SucceededAppend(a, b);
    FailedAppend(a, b);
  }

  // ---------------------------------------------------------------------------
  // Statistics index: each fetched stat is set in a map under its system id, in order.

  /** The map after setting every stat in order: a later stat overwrites an earlier one with the same id. */
  function StatsIndexSpec(stats: seq<Stat>): map<int, Stat>
    decreases |stats|
  {
    if stats == [] then map[]
    else StatsIndexSpec(stats[..|stats| - 1])[stats[|stats| - 1].idSistema := stats[|stats| - 1]]
  }

  /** Position of the last stat with the given id, or -1 when there is none. */
  function LastIndexWithId(stats: seq<Stat>, id: int): (i: int)
    ensures -1 <= i < |stats|
    ensures i >= 0 ==> stats[i].idSistema == id && forall j :: i < j < |stats| ==> stats[j].idSistema != id
    ensures i == -1 ==> forall j :: 0 <= j < |stats| ==> stats[j].idSistema != id
    decreases |stats|
  {
    if stats == [] then -1
    else if stats[|stats| - 1].idSistema == id then |stats| - 1
    else LastIndexWithId(stats[..|stats| - 1], id)
  }

  /** Each id in the list is indexed, nothing else is, and it maps to the LAST stat carrying it. */
  lemma {:induction false} StatsIndexLastWins(stats: seq<Stat>, id: int)
    ensures id in StatsIndexSpec(stats) <==> LastIndexWithId(stats, id) >= 0
    ensures id in StatsIndexSpec(stats) ==> StatsIndexSpec(stats)[id] == stats[LastIndexWithId(stats, id)]
    decreases |stats|
  {
    if stats != [] {
      StatsIndexLastWins(stats[..|stats| - 1], id);
    }
  }

  /** The page's forEach loop over the fetched statistics. */
  method BuildStatsIndex(stats: seq<Stat>) returns (index: map<int, Stat>)
    ensures index == StatsIndexSpec(stats)
    ensures forall id :: id in index <==> exists j :: 0 <= j < |stats| && stats[j].idSistema == id
  {
    index := map[];
    for i := 0 to |stats|
      invariant index == StatsIndexSpec(stats[..i])
    {
      assert stats[..i + 1][..i] == stats[..i];
      index := index[stats[i].idSistema := stats[i]];
    }
    assert stats[..|stats|] == stats;
    forall id | id in index
      ensures exists j :: 0 <= j < |stats| && stats[j].idSistema == id
    {
      StatsIndexLastWins(stats, id);
    }
    forall id | exists j :: 0 <= j < |stats| && stats[j].idSistema == id
      ensures id in index
    {
      StatsIndexLastWins(stats, id);
    }
  }

  // ---------------------------------------------------------------------------
  // Contract lookup: the first contract whose company id is the tenant's system id.

  /** Position of the first contract with the given id (what Array.prototype.find returns). */
  function FirstContractIndex(cs: seq<Contract>, id: int): (r: Option<nat>)
    ensures r.Some? ==> r.value < |cs| && cs[r.value].idEmpresa == id
    ensures r.Some? ==> forall j :: 0 <= j < r.value ==> cs[j].idEmpresa != id
    ensures r.None? ==> forall j :: 0 <= j < |cs| ==> cs[j].idEmpresa != id
    decreases |cs|
  {
    if cs == [] then None
    else if cs[0].idEmpresa == id then Some(0)
    else match FirstContractIndex(cs[1..], id)
      case None => None
      case Some(k) => Some(k + 1)
  }

  // ---------------------------------------------------------------------------
  // Duration formatter (milliseconds to "Ns" or "Mm Ss")

  /**
   * `${s}s` below one minute, `${m}m ${s}s` from one minute on, where the
   * whole seconds are Math.floor(ms / 1000) (Dafny's `/` by a positive divisor
   * is that floor, also for negative ms).
   */
  function FormatDuration(ms: int): (r: string)
    ensures |r| >= 2 && r[|r| - 1] == 's'
    ensures 'm' in r <==> ms / 1000 >= 60
    ensures '-' in r <==> ms < 0
  {
    var segundos := ms / 1000;
    if segundos < 60 then IntToString(segundos) + "s"
    else IntToString(segundos / 60) + "m " + IntToString(segundos % 60) + "s"
  }

  /** What a formatted duration says: whole seconds, or minutes and seconds. */
  datatype Duration = Seconds(total: int) | MinutesSeconds(minutes: int, seconds: int)

  function DurationSeconds(d: Duration): int
  {
    match d
    case Seconds(n) => n
    case MinutesSeconds(m, s) => m * 60 + s
  }

  /** Position of the first `c` in `s`, or |s| when there is none. */
  function IndexOf(s: string, c: char): (i: nat)
    ensures i <= |s|
    ensures i < |s| ==> s[i] == c
    ensures forall j :: 0 <= j < i ==> s[j] != c
    decreases |s|
  {
    if s == [] then 0
    else if s[0] == c then 0
    else 1 + IndexOf(s[1..], c)
  }

  /** Reads a formatted duration back; the independent partner of FormatDuration. */
  function ParseDuration(s: string): Option<Duration>
  {
    if |s| == 0 || s[|s| - 1] != 's' then None
    else
      var body := s[..|s| - 1];
      var i := IndexOf(body, 'm');
      if i == |body| then
        match ParseInteger(body)
        case Some(n) => Some(Seconds(n))
        case None => None
      else if i + 1 < |body| && body[i + 1] == ' ' then
        match (ParseInteger(body[..i]), ParseInteger(body[i + 2..]))
        case (Some(m), Some(sec)) => Some(MinutesSeconds(m, sec))
        case _ => None
      else None
  }

  lemma NoLetterInIntToString(n: int, c: char)
    requires c != '-' && !IsDigit(c)
    ensures IndexOf(IntToString(n), c) == |IntToString(n)|
  {
  }

  /**
   * The formatted duration reads back as exactly the whole seconds of `ms`:
   * plain seconds below 60, otherwise minutes and a seconds part in [0, 60).
   */
  lemma FormatDurationReadsBack(ms: int)
    ensures ParseDuration(FormatDuration(ms)).Some?
    ensures DurationSeconds(ParseDuration(FormatDuration(ms)).value) == ms / 1000
    ensures ParseDuration(FormatDuration(ms)).value.Seconds? <==> ms / 1000 < 60
    ensures ParseDuration(FormatDuration(ms)).value.MinutesSeconds? ==>
              ParseDuration(FormatDuration(ms)).value.minutes >= 1 &&
              0 <= ParseDuration(FormatDuration(ms)).value.seconds < 60
  {
    var segundos := ms / 1000;
    var s := FormatDuration(ms);
    if segundos < 60 {
      var a := IntToString(segundos);
      assert s[..|s| - 1] == a;
      NoLetterInIntToString(segundos, 'm');
      IntToStringRoundTrip(segundos);
    } else {
      var a := IntToString(segundos / 60);
      var b := IntToString(segundos % 60);
      var body := a + "m " + b;
      assert s == body + "s";
      assert s[..|s| - 1] == body;
      NoLetterInIntToString(segundos / 60, 'm');
      assert IndexOf(body, 'm') == |a| by {
        assert body[|a|] == 'm';
      }
      assert body[..|a|] == a;
      assert body[|a| + 2..] == b;
      IntToStringRoundTrip(segundos / 60);
      IntToStringRoundTrip(segundos % 60);
    }
  }
}
