/** One scrape: log in, report the session, fetch the DOCSIS tables, project every
    channel into gauges, and log out, as a pure function from the device's replies to
    the ordered observations the exporter hands to the registry. */
module Collector {
  import opened Wrappers
  import opened Text
  import opened Credentials
  import opened Csrf
  import opened Api
  import opened Numeric
  import opened Metrics

  /** One gauge sample: descriptor, value, and one label value per variable label. */
  datatype Observation = Observation(metric: Metric, value: real, labels: seq<string>)

  /** The outcome of a scrape. `completed` is false when the scrape panicked part way;
      `observations` are those emitted before that point. */
  datatype Scrape = Scrape(observations: seq<Observation>, session: Session, completed: bool)

  /** The factor every frequency and bandwidth reading is multiplied by: the Go literal
      `10e9`, which is ten to the tenth. */
  const FrequencyScale: real := 10000000000.0

  const LockedStatus: string := "Locked"

  /** The lock gauge: 1 exactly for the status string `Locked`. */
  function LockIndicator(status: string): (r: real)
    ensures r == 1.0 <==> status == LockedStatus
    ensures r == 0.0 <==> status != LockedStatus
  {
    Bool2Float64(status == LockedStatus)
  }

  /** A label value count that fits the descriptor: `MustNewConstMetric` panics otherwise. */
  predicate FitsDescriptor(o: Observation) {
    |o.labels| == |LabelNames(o.metric)|
  }

  /** Every observation fits its descriptor. */
  predicate WellFormed(obs: seq<Observation>) {
    forall i :: 0 <= i < |obs| ==> FitsDescriptor(obs[i])
  }

  function DownstreamLabelValues(c: DocsisDownstreamChannel): seq<string> {
    [c.id, c.channelId, c.modulation, c.channelType]
  }

  function OfdmDownstreamLabelValues(c: OfdmDownstreamData): seq<string> {
    [c.id, c.channelIdOfdm, c.fftOfdm, c.channelType]
  }

  function UpstreamLabelValues(c: DocsisUpstreamChannel): seq<string> {
    [c.id, c.channelIdUp, c.symbolRate, c.channelType]
  }

  function OfdmUpstreamLabelValues(c: OfdmUpstreamData): seq<string> {
    [c.id, c.channelIdOfdm, c.fftOfdm, c.channelType]
  }

  /** The gauges a legacy upstream channel reports: its ranging-status descriptor is never used. */
  const UpstreamReported: seq<Metric> := [UpstreamCentralFrequency, UpstreamPower, UpstreamLocked]

  lemma DownstreamArity()
    ensures forall i :: 0 <= i < |DownstreamDescriptors| ==> LabelNames(DownstreamDescriptors[i]) == DownstreamChannelLabels
  {
    assert DownstreamDescriptors == [DownstreamCentralFrequency, DownstreamPower, DownstreamSnr, DownstreamLocked];
  }

  lemma OfdmDownstreamArity()
    ensures forall i :: 0 <= i < |OfdmDownstreamDescriptors| ==> LabelNames(OfdmDownstreamDescriptors[i]) == OfdmChannelLabels
  {
  }

  lemma UpstreamArity()
    ensures forall i :: 0 <= i < |UpstreamReported| ==> LabelNames(UpstreamReported[i]) == UpstreamLabels
  {
  }

  lemma OfdmUpstreamArity()
    ensures forall i :: 0 <= i < |OfdmUpstreamDescriptors| ==> LabelNames(OfdmUpstreamDescriptors[i]) == OfdmChannelLabels
  {
  }

  /** A frequency or bandwidth reading in the exported unit: the parsed number times `FrequencyScale`. */
  function ScaledReading(reading: string): real {
    Parse2Float(reading) * FrequencyScale
  }

  /** The four gauges of a legacy downstream channel, in descriptor order. */
  function DownstreamObservations(c: DocsisDownstreamChannel): (r: seq<Observation>)
    ensures |r| == |DownstreamDescriptors| == 4
    ensures forall i :: 0 <= i < |r| ==> r[i].metric == DownstreamDescriptors[i] && r[i].labels == DownstreamLabelValues(c)
    ensures r[0].value == ScaledReading(c.centralFrequency)
    ensures r[1].value == Parse2Float(c.power) && r[2].value == Parse2Float(c.snr)
    ensures r[3].value == LockIndicator(c.locked)
  {
    var labels := DownstreamLabelValues(c);
    [ Observation(DownstreamCentralFrequency, ScaledReading(c.centralFrequency), labels),
      Observation(DownstreamPower, Parse2Float(c.power), labels),
      Observation(DownstreamSnr, Parse2Float(c.snr), labels),
      Observation(DownstreamLocked, LockIndicator(c.locked), labels) ]
  }

  lemma DownstreamWellFormed(c: DocsisDownstreamChannel)
    ensures WellFormed(DownstreamObservations(c))
  {
    DownstreamArity();
  }

  /** The seven gauges of an OFDM downstream channel; the PLC frequency is reported as the end frequency. */
  function OfdmDownstreamObservations(c: OfdmDownstreamData): (r: seq<Observation>)
    ensures |r| == |OfdmDownstreamDescriptors| == 7
    ensures forall i :: 0 <= i < |r| ==> r[i].metric == OfdmDownstreamDescriptors[i] && r[i].labels == OfdmDownstreamLabelValues(c)
    ensures r[0].value == ScaledReading(c.startFrequency) && r[1].value == ScaledReading(c.plcFrequency)
    ensures r[2].value == ScaledReading(c.centralFrequencyOfdm) && r[3].value == ScaledReading(c.bandwidth)
    ensures r[4].value == Parse2Float(c.powerOfdm) && r[5].value == Parse2Float(c.snrOfdm)
    ensures r[6].value == LockIndicator(c.lockedOfdm)
  {
    var labels := OfdmDownstreamLabelValues(c);
    [ Observation(OfdmDownstreamStartFrequency, ScaledReading(c.startFrequency), labels),
      Observation(OfdmDownstreamEndFrequency, ScaledReading(c.plcFrequency), labels),
      Observation(OfdmDownstreamCentralFrequency, ScaledReading(c.centralFrequencyOfdm), labels),
      Observation(OfdmDownstreamBandwidth, ScaledReading(c.bandwidth), labels),
      Observation(OfdmDownstreamPower, Parse2Float(c.powerOfdm), labels),
      Observation(OfdmDownstreamSnr, Parse2Float(c.snrOfdm), labels),
      Observation(OfdmDownstreamLocked, LockIndicator(c.lockedOfdm), labels) ]
  }

  lemma OfdmDownstreamWellFormed(c: OfdmDownstreamData)
    ensures WellFormed(OfdmDownstreamObservations(c))
  {
    OfdmDownstreamArity();
  }

  /** The three gauges of a legacy upstream channel. */
  function UpstreamObservations(c: DocsisUpstreamChannel): (r: seq<Observation>)
    ensures |r| == |UpstreamReported| == 3
    ensures forall i :: 0 <= i < |r| ==> r[i].metric == UpstreamReported[i] && r[i].labels == UpstreamLabelValues(c)
    ensures r[0].value == ScaledReading(c.centralFrequency) && r[1].value == Parse2Float(c.power)
    ensures r[2].value == LockIndicator(c.lockStatus)
  {
    var labels := UpstreamLabelValues(c);
    [ Observation(UpstreamCentralFrequency, ScaledReading(c.centralFrequency), labels),
      Observation(UpstreamPower, Parse2Float(c.power), labels),
      Observation(UpstreamLocked, LockIndicator(c.lockStatus), labels) ]
  }

  lemma UpstreamWellFormed(c: DocsisUpstreamChannel)
    ensures WellFormed(UpstreamObservations(c))
  {
    UpstreamArity();
  }

  /** The six gauges of an OFDM upstream channel. */
  function OfdmUpstreamObservations(c: OfdmUpstreamData): (r: seq<Observation>)
    ensures |r| == |OfdmUpstreamDescriptors| == 6
    ensures forall i :: 0 <= i < |r| ==> r[i].metric == OfdmUpstreamDescriptors[i] && r[i].labels == OfdmUpstreamLabelValues(c)
    ensures r[0].value == ScaledReading(c.startFrequency) && r[1].value == ScaledReading(c.plcFrequency)
    ensures r[2].value == ScaledReading(c.centralFrequencyOfdm) && r[3].value == ScaledReading(c.bandwidth)
    ensures r[4].value == Parse2Float(c.powerOfdm) && r[5].value == LockIndicator(c.lockedOfdm)
  {
    var labels := OfdmUpstreamLabelValues(c);
    [ Observation(OfdmUpstreamStartFrequency, ScaledReading(c.startFrequency), labels),
      Observation(OfdmUpstreamEndFrequency, ScaledReading(c.plcFrequency), labels),
      Observation(OfdmUpstreamCentralFrequency, ScaledReading(c.centralFrequencyOfdm), labels),
      Observation(OfdmUpstreamBandwidth, ScaledReading(c.bandwidth), labels),
      Observation(OfdmUpstreamPower, Parse2Float(c.powerOfdm), labels),
      Observation(OfdmUpstreamLocked, LockIndicator(c.lockedOfdm), labels) ]
  }

  lemma OfdmUpstreamWellFormed(c: OfdmUpstreamData)
    ensures WellFormed(OfdmUpstreamObservations(c))
  {
    OfdmUpstreamArity();
  }

  /** The number of channel gauges a status record yields. */
  function ChannelCount(data: ModemStatusData): nat {
    4 * |data.downstream| + 7 * |data.ofdmDownstream| + 3 * |data.upstream| + 6 * |data.ofdmUpstream|
  }

  /** The gauges of every channel of one table, channel by channel in table order. */
  function Project<T>(cs: seq<T>, f: T -> seq<Observation>): seq<Observation>
    decreases |cs|
  {
    if cs == [] then [] else f(cs[0]) + Project(cs[1..], f)
  }

  lemma {:induction false} ProjectLength<T>(cs: seq<T>, f: T -> seq<Observation>, k: nat)
    requires forall c :: |f(c)| == k
    ensures |Project(cs, f)| == k * |cs|
    decreases |cs|
  {
    if cs != [] {
      ProjectLength(cs[1..], f, k);
    }
  }

  lemma {:induction false} ProjectWellFormed<T>(cs: seq<T>, f: T -> seq<Observation>)
    requires forall c :: WellFormed(f(c))
    ensures WellFormed(Project(cs, f))
    decreases |cs|
  {
    if cs != [] {
      ProjectWellFormed(cs[1..], f);
      var a, b := f(cs[0]), Project(cs[1..], f);
      assert forall i :: 0 <= i < |a + b| ==> (a + b)[i] == if i < |a| then a[i] else b[i - |a|];
    }
  }

  /** The channel gauges of a status reply, grouped downstream, OFDM downstream, upstream,
      OFDM upstream: 4, 7, 3 and 6 per channel. */
  function ChannelObservations(data: ModemStatusData): (r: seq<Observation>)
    ensures |r| == ChannelCount(data)
  {
    ProjectLength(data.downstream, DownstreamObservations, 4);
    ProjectLength(data.ofdmDownstream, OfdmDownstreamObservations, 7);
    ProjectLength(data.upstream, UpstreamObservations, 3);
    ProjectLength(data.ofdmUpstream, OfdmUpstreamObservations, 6);
    Project(data.downstream, DownstreamObservations)
      + Project(data.ofdmDownstream, OfdmDownstreamObservations)
      + Project(data.upstream, UpstreamObservations)
      + Project(data.ofdmUpstream, OfdmUpstreamObservations)
  }

  /** Every channel gauge carries one label value per label name of its descriptor. */
  lemma ChannelObservationsWellFormed(data: ModemStatusData)
    ensures WellFormed(ChannelObservations(data))
  {
    forall c ensures WellFormed(DownstreamObservations(c)) { DownstreamWellFormed(c); }
    forall c ensures WellFormed(OfdmDownstreamObservations(c)) { OfdmDownstreamWellFormed(c); }
    forall c ensures WellFormed(UpstreamObservations(c)) { UpstreamWellFormed(c); }
    forall c ensures WellFormed(OfdmUpstreamObservations(c)) { OfdmUpstreamWellFormed(c); }
    var a, b := Project(data.downstream, DownstreamObservations), Project(data.ofdmDownstream, OfdmDownstreamObservations);
    var c, d := Project(data.upstream, UpstreamObservations), Project(data.ofdmUpstream, OfdmUpstreamObservations);
    ProjectWellFormed(data.downstream, DownstreamObservations);
    ProjectWellFormed(data.ofdmDownstream, OfdmDownstreamObservations);
    ProjectWellFormed(data.upstream, UpstreamObservations);
    ProjectWellFormed(data.ofdmUpstream, OfdmUpstreamObservations);
    AppendWellFormed(a, b);
    AppendWellFormed(a + b, c);
    AppendWellFormed(a + b + c, d);
  }

  lemma AppendWellFormed(a: seq<Observation>, b: seq<Observation>)
    requires WellFormed(a) && WellFormed(b)
    ensures WellFormed(a + b)
  {
    assert forall i :: 0 <= i < |a + b| ==> (a + b)[i] == if i < |a| then a[i] else b[i - |a|];
  }

  /** Projection lays each channel's gauges out as one block of `n`, in channel order. */
  lemma {:induction false} ProjectIndex<T>(cs: seq<T>, f: T -> seq<Observation>, n: nat, k: nat, j: nat)
    requires forall c :: |f(c)| == n
    requires k < |cs| && j < n
    ensures n * k + j < |Project(cs, f)| && Project(cs, f)[n * k + j] == f(cs[k])[j]
    decreases k
  {
    ProjectLength(cs, f, n);
    if k > 0 {
      ProjectIndex(cs[1..], f, n, k - 1, j);
      assert n * k + j == n + (n * (k - 1) + j);
    }
  }

  /** A table's gauges sit in one block of a longer sequence, after the gauges of `pre`. */
  lemma TableGaugeAt<T>(pre: seq<Observation>, cs: seq<T>, f: T -> seq<Observation>, n: nat,
                        mid: seq<Observation>, post: seq<Observation>, tail: seq<Observation>, k: nat, j: nat)
    requires forall c :: |f(c)| == n
    requires k < |cs| && j < n
    ensures |pre| + n * k + j < |pre + Project(cs, f) + mid + post + tail|
    ensures (pre + Project(cs, f) + mid + post + tail)[|pre| + n * k + j] == f(cs[k])[j]
  {
    ProjectIndex(cs, f, n, k, j);
    var i := n * k + j;
    var t := Project(cs, f);
    assert (pre + t)[|pre| + i] == t[i];
    assert (pre + t + mid)[|pre| + i] == (pre + t)[|pre| + i];
    assert (pre + t + mid + post)[|pre| + i] == (pre + t + mid)[|pre| + i];
  }

  /** The same for the table whose block comes first. */
  lemma FirstTableGaugeAt<T>(cs: seq<T>, f: T -> seq<Observation>, n: nat,
                             mid: seq<Observation>, post: seq<Observation>, tail: seq<Observation>, k: nat, j: nat)
    requires forall c :: |f(c)| == n
    requires k < |cs| && j < n
    ensures n * k + j < |Project(cs, f) + mid + post + tail|
    ensures (Project(cs, f) + mid + post + tail)[n * k + j] == f(cs[k])[j]
  {
    ProjectIndex(cs, f, n, k, j);
    var i := n * k + j;
    var t := Project(cs, f);
    assert (t + mid)[i] == t[i];
    assert (t + mid + post)[i] == (t + mid)[i];
  }

  /** The channel gauges come table by table; the lemmas below place the `j`-th gauge of
      the `k`-th channel of each table. */
  lemma DownstreamGaugeAt(data: ModemStatusData, k: nat, j: nat)
    requires k < |data.downstream| && j < 4
    ensures 4 * k + j < |ChannelObservations(data)|
    ensures ChannelObservations(data)[4 * k + j] == DownstreamObservations(data.downstream[k])[j]
  {
    var r := ChannelObservations(data);
    assert r[4 * k + j] == DownstreamObservations(data.downstream[k])[j] by {
      FirstTableGaugeAt(data.downstream, DownstreamObservations, 4, Project(data.ofdmDownstream, OfdmDownstreamObservations),
                        Project(data.upstream, UpstreamObservations), Project(data.ofdmUpstream, OfdmUpstreamObservations), k, j);
    }
  }

  lemma OfdmDownstreamGaugeAt(data: ModemStatusData, k: nat, j: nat)
    requires k < |data.ofdmDownstream| && j < 7
    ensures 4 * |data.downstream| + 7 * k + j < |ChannelObservations(data)|
    ensures ChannelObservations(data)[4 * |data.downstream| + 7 * k + j] == OfdmDownstreamObservations(data.ofdmDownstream[k])[j]
  {
    ProjectLength(data.downstream, DownstreamObservations, 4);
    TableGaugeAt(Project(data.downstream, DownstreamObservations), data.ofdmDownstream, OfdmDownstreamObservations, 7,
                 Project(data.upstream, UpstreamObservations), Project(data.ofdmUpstream, OfdmUpstreamObservations), [], k, j);
  }

  lemma UpstreamGaugeAt(data: ModemStatusData, k: nat, j: nat)
    requires k < |data.upstream| && j < 3
    ensures 4 * |data.downstream| + 7 * |data.ofdmDownstream| + 3 * k + j < |ChannelObservations(data)|
    ensures ChannelObservations(data)[4 * |data.downstream| + 7 * |data.ofdmDownstream| + 3 * k + j] == UpstreamObservations(data.upstream[k])[j]
  {
    ProjectLength(data.downstream, DownstreamObservations, 4);
    ProjectLength(data.ofdmDownstream, OfdmDownstreamObservations, 7);
    TableGaugeAt(Project(data.downstream, DownstreamObservations) + Project(data.ofdmDownstream, OfdmDownstreamObservations),
                 data.upstream, UpstreamObservations, 3, Project(data.ofdmUpstream, OfdmUpstreamObservations), [], [], k, j);
  }

  lemma OfdmUpstreamGaugeAt(data: ModemStatusData, k: nat, j: nat)
    requires k < |data.ofdmUpstream| && j < 6
    ensures 4 * |data.downstream| + 7 * |data.ofdmDownstream| + 3 * |data.upstream| + 6 * k + j < |ChannelObservations(data)|
    ensures ChannelObservations(data)[4 * |data.downstream| + 7 * |data.ofdmDownstream| + 3 * |data.upstream| + 6 * k + j] == OfdmUpstreamObservations(data.ofdmUpstream[k])[j]
  {
    ProjectLength(data.downstream, DownstreamObservations, 4);
    ProjectLength(data.ofdmDownstream, OfdmDownstreamObservations, 7);
    ProjectLength(data.upstream, UpstreamObservations, 3);
    TableGaugeAt(Project(data.downstream, DownstreamObservations) + Project(data.ofdmDownstream, OfdmDownstreamObservations)
                 + Project(data.upstream, UpstreamObservations),
                 data.ofdmUpstream, OfdmUpstreamObservations, 6, [], [], [], k, j);
  }

  /** Every downstream channel reports a lock gauge, its fourth. */
  lemma DownstreamLockGauge(data: ModemStatusData, k: nat)
    requires k < |data.downstream|
    ensures 4 * k + 3 < |ChannelObservations(data)|
    ensures ChannelObservations(data)[4 * k + 3].metric == DownstreamLocked
  {
    DownstreamGaugeAt(data, k, 3);
  }

  /** Every upstream channel reports a lock gauge, its third. */
  lemma UpstreamLockGauge(data: ModemStatusData, k: nat)
    requires k < |data.upstream|
    ensures 4 * |data.downstream| + 7 * |data.ofdmDownstream| + 3 * k + 2 < |ChannelObservations(data)|
    ensures ChannelObservations(data)[4 * |data.downstream| + 7 * |data.ofdmDownstream| + 3 * k + 2].metric
         == UpstreamLocked
  {
    UpstreamGaugeAt(data, k, 2);
    assert UpstreamReported[2] == UpstreamLocked;
    assert UpstreamObservations(data.upstream[k])[2].metric == UpstreamReported[2];
    assert ChannelObservations(data)[4 * |data.downstream| + 7 * |data.ofdmDownstream| + 3 * k + 2]
        == UpstreamObservations(data.upstream[k])[2];
  }

  /** The lock gauge of every downstream channel has a descriptor `Describe` never
      announces, though the corrected list does. */
  lemma DownstreamLockGaugeIsUndescribed(data: ModemStatusData, k: nat)
    requires k < |data.downstream|
    ensures 4 * k + 3 < |ChannelObservations(data)|
    ensures ChannelObservations(data)[4 * k + 3].metric !in Describe()
    ensures ChannelObservations(data)[4 * k + 3].metric in DescribeCorrected()
  {
    DownstreamLockGauge(data, k);
    DescribeOmitsOnlyLegacyLocks(DownstreamLocked);
    assert DescribeCorrected()[Ordinal(DownstreamLocked)] == DownstreamLocked;
  }

  /** The same for the lock gauge of every upstream channel. */
  lemma UpstreamLockGaugeIsUndescribed(data: ModemStatusData, k: nat)
    requires k < |data.upstream|
    ensures 4 * |data.downstream| + 7 * |data.ofdmDownstream| + 3 * k + 2 < |ChannelObservations(data)|
    ensures ChannelObservations(data)[4 * |data.downstream| + 7 * |data.ofdmDownstream| + 3 * k + 2].metric
            !in Describe()
    ensures ChannelObservations(data)[4 * |data.downstream| + 7 * |data.ofdmDownstream| + 3 * k + 2].metric
            in DescribeCorrected()
  {
    UpstreamLockGauge(data, k);
    DescribeOmitsOnlyLegacyLocks(UpstreamLocked);
    assert DescribeCorrected()[Ordinal(UpstreamLocked)] == UpstreamLocked;
  }

  /** The channel data a status fetch yields: only a fetch without error whose `data` is present. */
  function FetchedData(status: Result<Decoded<ModemStatusResponse>, ApiError>): Option<ModemStatusData> {
    if status.Success? && status.value.valid then status.value.value.data else None
  }

  /** The channel gauges of a status fetch: those of its channel data when the fetch
      yielded some, and none otherwise. */
  function StatusObservations(status: Result<Decoded<ModemStatusResponse>, ApiError>): (r: seq<Observation>)
    ensures WellFormed(r)
    ensures FetchedData(status).None? ==> r == []
    ensures FetchedData(status).Some? ==> r == ChannelObservations(FetchedData(status).value)
  {
    match FetchedData(status)
    case Some(data) => ChannelObservationsWellFormed(data); ChannelObservations(data)
    case None => []
  }

  /** How a scrape reports the logout outcome. */
  type LogoutReport = Result<LogoutResponse, ApiError> -> seq<Observation>

  /** The logout report as the source writes it: without a `return` after the failure
      gauge, a failed logout reports `logout_success` 0 and then 1. */
  function LogoutObservations(logout: Result<LogoutResponse, ApiError>): (r: seq<Observation>)
    ensures |r| == 2 && WellFormed(r)
    ensures r[1] == Observation(LogoutSuccess, 1.0, [])
    ensures r[0].metric == LogoutMessage <==> logout.Success?
    ensures logout.Success? ==> r[0] == Observation(LogoutMessage, 1.0, [logout.value.message])
    ensures logout.Failure? ==> r[0] == Observation(LogoutSuccess, 0.0, [])
  {
    match logout
    case Success(response) =>
      [Observation(LogoutMessage, 1.0, [response.message]), Observation(LogoutSuccess, 1.0, [])]
    case Failure(_) =>
      [Observation(LogoutSuccess, 0.0, []), Observation(LogoutSuccess, 1.0, [])]
  }

  /** The logout report with the missing `return`: exactly one `logout_success` gauge, last,
      whose value says whether the logout succeeded. */
  function LogoutObservationsCorrected(logout: Result<LogoutResponse, ApiError>): (r: seq<Observation>)
    ensures |r| == (if logout.Success? then 2 else 1) && WellFormed(r)
    ensures r[|r| - 1] == Observation(LogoutSuccess, Bool2Float64(logout.Success?), [])
    ensures logout.Success? ==> r[0] == Observation(LogoutMessage, 1.0, [logout.value.message])
    ensures forall i :: 0 <= i < |r| - 1 ==> r[i].metric != LogoutSuccess
  {
    match logout
    case Success(response) =>
      [Observation(LogoutMessage, 1.0, [response.message]), Observation(LogoutSuccess, 1.0, [])]
    case Failure(_) =>
      [Observation(LogoutSuccess, 0.0, [])]
  }

  /** A failed logout is reported as both failed and successful. */
  lemma LogoutFailureReportsBothOutcomes(e: ApiError)
    ensures var r := LogoutObservations(Failure(e));
            exists i, j :: 0 <= i < j < |r| && r[i].metric == r[j].metric == LogoutSuccess
                           && r[i].value == 0.0 && r[j].value == 1.0
  {
    var r := LogoutObservations(Failure(e));
    assert r[0].metric == r[1].metric == LogoutSuccess;
  }

  /** The identity gauges of a successful login: user, uid, and the default-password flag. */
  function IdentityObservations(data: LoginResponseData): (r: seq<Observation>)
    ensures |r| == 3 && WellFormed(r)
    ensures r[0] == Observation(User, 1.0, [data.user]) && r[1] == Observation(Uid, 1.0, [data.uid])
    ensures r[2].metric == DefaultPassword && r[2].labels == []
    ensures r[2].value == Bool2Float64(data.defaultPassword == "Yes")
    ensures r[2].value == 1.0 <==> data.defaultPassword == "Yes"
  {
    [ Observation(User, 1.0, [data.user]),
      Observation(Uid, 1.0, [data.uid]),
      Observation(DefaultPassword, Bool2Float64(data.defaultPassword == "Yes"), []) ]
  }

  /** The gauges a successful login reports: its message and success. */
  function LoginObservations(response: LoginResponse): (r: seq<Observation>)
    ensures |r| == 2 && WellFormed(r)
    ensures r[0] == Observation(LoginMessage, 1.0, [response.message])
    ensures r[1] == Observation(LoginSuccess, 1.0, [])
  {
    [Observation(LoginMessage, 1.0, [response.message]), Observation(LoginSuccess, 1.0, [])]
  }

  /** The gauges of a failed login: the login and the skipped logout both report failure. */
  const LoginFailedObservations: seq<Observation> :=
    [Observation(LoginSuccess, 0.0, []), Observation(LogoutSuccess, 0.0, [])]

  /** The gauges of a scrape whose login carried data, in the order they are sent. */
  function SessionObservations(response: LoginResponse, data: LoginResponseData,
                               status: Result<Decoded<ModemStatusResponse>, ApiError>,
                               logout: seq<Observation>): (r: seq<Observation>)
    ensures |r| == 5 + |StatusObservations(status)| + |logout|
    ensures r[..2] == LoginObservations(response) && r[2..5] == IdentityObservations(data)
    ensures r[5..5 + |StatusObservations(status)|] == StatusObservations(status)
    ensures r[5 + |StatusObservations(status)|..] == logout
    ensures WellFormed(logout) ==> WellFormed(r)
  {
    var login, identity, channels := LoginObservations(response), IdentityObservations(data), StatusObservations(status);
    ConcatParts(login, identity, channels, logout);
    AppendWellFormed(login, identity);
    AppendWellFormed(login + identity, channels);
    var r := login + identity + channels + logout;
    assert WellFormed(logout) ==> WellFormed(r) by {
      if WellFormed(logout) {
        AppendWellFormed(login + identity + channels, logout);
      }
    }
    r
  }

  /** The logout gauges close the session's report, in the order the report lists them. */
  lemma SessionObservationsEndWithLogout(response: LoginResponse, data: LoginResponseData,
                                         status: Result<Decoded<ModemStatusResponse>, ApiError>,
                                         logout: seq<Observation>, i: nat)
    requires i < |logout|
    ensures SessionObservations(response, data, status, logout)[5 + |StatusObservations(status)| + i] == logout[i]
  {
    AppendIndex(LoginObservations(response) + IdentityObservations(data) + StatusObservations(status), logout, i);
  }

  /** Slicing a four-part concatenation back into its parts. */
  lemma ConcatParts<T>(a: seq<T>, b: seq<T>, c: seq<T>, d: seq<T>)
    ensures var s := a + b + c + d;
            && s[..|a|] == a && s[|a|..|a| + |b|] == b
            && s[|a| + |b|..|a| + |b| + |c|] == c && s[|a| + |b| + |c|..] == d
  {
    var s := a + b + c + d;
    assert s[..|a|] == a;
    assert s[|a|..|a| + |b|] == b;
    assert s[|a| + |b|..|a| + |b| + |c|] == c;
    assert s[|a| + |b| + |c|..] == d;
  }

  lemma AppendIndex<T>(head: seq<T>, tail: seq<T>, i: nat)
    requires i < |tail|
    ensures (head + tail)[|head| + i] == tail[i]
  {
  }

  /** The scrape, with the logout reported by `report`. */
  function CollectWith(pbkdf2: Pbkdf2, st: Station, s: Session, nowMillis: int, report: LogoutReport): Scrape
    requires ProducesKeyLength(pbkdf2)
  {
    AfterLogin(st, Login(pbkdf2, st, s), nowMillis, report)
  }

  /** The rest of a scrape once the login step is over, whatever its outcome. It completes
      unless the login carried no `data`, and makes two more requests, the status fetch
      and the logout, exactly when the login succeeded with `data`. */
  function AfterLogin(st: Station, login: Step<LoginResponse>, nowMillis: int, report: LogoutReport): (r: Scrape)
    ensures r.completed <==> !(login.result.Success? && login.result.value.data.None?)
    ensures |r.session.log|
            == |login.session.log| + (if login.result.Success? && login.result.value.data.Some? then 2 else 0)
    ensures r.session.log[..|login.session.log|] == login.session.log
  {
    match login.result
    case Failure(_) => Scrape(LoginFailedObservations, login.session, true)
    case Success(response) =>
      match response.data
      case None => Scrape(LoginObservations(response), login.session, false)
      case Some(data) =>
        var status := GetModemStatus(st, login.session, nowMillis);
        var logout := Logout(st, status.session);
        Scrape(SessionObservations(response, data, status.result, report(logout.result)), logout.session, true)
  }

  /** `Collect` as the source writes it. */
  function Collect(pbkdf2: Pbkdf2, st: Station, s: Session, nowMillis: int): (r: Scrape)
    requires ProducesKeyLength(pbkdf2)
    ensures WellFormed(r.observations)
    ensures forall initial {:trigger WellThreaded(initial, r.session)} ::
              WellThreaded(initial, s) ==> WellThreaded(initial, r.session)
  {
    var r := CollectWith(pbkdf2, st, s, nowMillis, LogoutObservations);
    ScrapeWellFormed(pbkdf2, st, s, nowMillis, LogoutObservations);
    r
  }

  /** `Collect` with the logout report corrected. */
  function CollectCorrected(pbkdf2: Pbkdf2, st: Station, s: Session, nowMillis: int): (r: Scrape)
    requires ProducesKeyLength(pbkdf2)
    ensures WellFormed(r.observations)
    ensures forall i :: 0 <= i < |r.observations| - 1 ==> r.observations[i].metric != LogoutSuccess
  {
    var r := CollectWith(pbkdf2, st, s, nowMillis, LogoutObservationsCorrected);
    ScrapeWellFormed(pbkdf2, st, s, nowMillis, LogoutObservationsCorrected);
    CorrectedScrapeReportsLogoutLast(st, Login(pbkdf2, st, s), nowMillis);
    r
  }

  /** No gauge of `obs` belongs to descriptor `m`. */
  predicate AvoidsMetric(obs: seq<Observation>, m: Metric) {
    forall i :: 0 <= i < |obs| ==> obs[i].metric != m
  }

  lemma AppendAvoids(a: seq<Observation>, b: seq<Observation>, m: Metric)
    requires AvoidsMetric(a, m) && AvoidsMetric(b, m)
    ensures AvoidsMetric(a + b, m)
  {
    assert forall i :: 0 <= i < |a + b| ==> (a + b)[i] == if i < |a| then a[i] else b[i - |a|];
  }

  lemma {:induction false} ProjectAvoids<T>(cs: seq<T>, f: T -> seq<Observation>, m: Metric)
    requires forall c :: AvoidsMetric(f(c), m)
    ensures AvoidsMetric(Project(cs, f), m)
    decreases |cs|
  {
    if cs != [] {
      ProjectAvoids(cs[1..], f, m);
      AppendAvoids(f(cs[0]), Project(cs[1..], f), m);
    }
  }

  /** No channel gauge is a `logout_success` gauge. */
  lemma ChannelObservationsAvoidLogout(data: ModemStatusData)
    ensures AvoidsMetric(ChannelObservations(data), LogoutSuccess)
  {
    forall c ensures AvoidsMetric(DownstreamObservations(c), LogoutSuccess) {
      assert LogoutSuccess !in DownstreamDescriptors;
    }
    forall c ensures AvoidsMetric(OfdmDownstreamObservations(c), LogoutSuccess) {
      assert LogoutSuccess !in OfdmDownstreamDescriptors;
    }
    forall c ensures AvoidsMetric(UpstreamObservations(c), LogoutSuccess) {
      assert LogoutSuccess !in UpstreamReported;
    }
    forall c ensures AvoidsMetric(OfdmUpstreamObservations(c), LogoutSuccess) {
      assert LogoutSuccess !in OfdmUpstreamDescriptors;
    }
    var a, b := Project(data.downstream, DownstreamObservations), Project(data.ofdmDownstream, OfdmDownstreamObservations);
    var c, d := Project(data.upstream, UpstreamObservations), Project(data.ofdmUpstream, OfdmUpstreamObservations);
    ProjectAvoids(data.downstream, DownstreamObservations, LogoutSuccess);
    ProjectAvoids(data.ofdmDownstream, OfdmDownstreamObservations, LogoutSuccess);
    ProjectAvoids(data.upstream, UpstreamObservations, LogoutSuccess);
    ProjectAvoids(data.ofdmUpstream, OfdmUpstreamObservations, LogoutSuccess);
    AppendAvoids(a, b, LogoutSuccess);
    AppendAvoids(a + b, c, LogoutSuccess);
    AppendAvoids(a + b + c, d, LogoutSuccess);
  }

  /** With the corrected logout report, a `logout_success` gauge can only be a scrape's
      last gauge, so a scrape reports at most one logout outcome. The report as written
      breaks this on every failed logout. */
  lemma CorrectedScrapeReportsLogoutLast(st: Station, login: Step<LoginResponse>, nowMillis: int)
    ensures var r := AfterLogin(st, login, nowMillis, LogoutObservationsCorrected).observations;
            forall i :: 0 <= i < |r| - 1 ==> r[i].metric != LogoutSuccess
  {
    if login.result.Success? && login.result.value.data.Some? {
      var status := GetModemStatus(st, login.session, nowMillis);
      var logout := Logout(st, status.session);
      AfterLoginWithData(st, login, nowMillis, LogoutObservationsCorrected);
      SessionReportsLogoutLast(login.result.value, login.result.value.data.value, status.result,
                               LogoutObservationsCorrected(logout.result));
    }
  }

  /** A session's gauges keep `logout_success` last whenever its logout report does. */
  lemma SessionReportsLogoutLast(response: LoginResponse, data: LoginResponseData,
                                 status: Result<Decoded<ModemStatusResponse>, ApiError>,
                                 report: seq<Observation>)
    requires forall i :: 0 <= i < |report| - 1 ==> report[i].metric != LogoutSuccess
    ensures var r := SessionObservations(response, data, status, report);
            forall i :: 0 <= i < |r| - 1 ==> r[i].metric != LogoutSuccess
  {
    var r := SessionObservations(response, data, status, report);
    if FetchedData(status).Some? {
      ChannelObservationsAvoidLogout(FetchedData(status).value);
    }
    assert AvoidsMetric(LoginObservations(response), LogoutSuccess);
    assert AvoidsMetric(IdentityObservations(data), LogoutSuccess);
    LastBySlices(r, 5 + |StatusObservations(status)|, LogoutSuccess);
  }

  /** The slice layout of a session's gauges: when none of the first `n` gauges is an `m`
      gauge and the rest keeps `m` last, no gauge but the last is an `m` gauge. */
  lemma LastBySlices(r: seq<Observation>, n: nat, m: Metric)
    requires 5 <= n <= |r|
    requires AvoidsMetric(r[..2], m) && AvoidsMetric(r[2..5], m) && AvoidsMetric(r[5..n], m)
    requires forall i :: 0 <= i < |r[n..]| - 1 ==> r[n..][i].metric != m
    ensures forall i :: 0 <= i < |r| - 1 ==> r[i].metric != m
  {
    AvoidsBySlices(r, 2, 5, m);
    AvoidsBySlices(r, 5, n, m);
    LastOnlyAfter(r, n, m);
  }

  lemma AvoidsBySlices(r: seq<Observation>, a: nat, b: nat, m: Metric)
    requires a <= b <= |r| && AvoidsMetric(r[..a], m) && AvoidsMetric(r[a..b], m)
    ensures AvoidsMetric(r[..b], m)
  {
    assert forall i :: a <= i < b ==> r[i] == r[a..b][i - a];
  }

  lemma LastOnlyAfter(r: seq<Observation>, k: nat, m: Metric)
    requires k <= |r| && AvoidsMetric(r[..k], m)
    requires forall i :: 0 <= i < |r[k..]| - 1 ==> r[k..][i].metric != m
    ensures forall i :: 0 <= i < |r| - 1 ==> r[i].metric != m
  {
    assert forall i :: k <= i < |r| ==> r[i] == r[k..][i - k];
  }

  lemma ScrapeWellFormed(pbkdf2: Pbkdf2, st: Station, s: Session, nowMillis: int, report: LogoutReport)
    requires ProducesKeyLength(pbkdf2)
    requires forall res :: WellFormed(report(res))
    ensures WellFormed(CollectWith(pbkdf2, st, s, nowMillis, report).observations)
  {
    AfterLoginWellFormed(st, Login(pbkdf2, st, s), nowMillis, report);
  }

  lemma AfterLoginWellFormed(st: Station, login: Step<LoginResponse>, nowMillis: int, report: LogoutReport)
    requires forall res :: WellFormed(report(res))
    ensures WellFormed(AfterLogin(st, login, nowMillis, report).observations)
  {
    assert WellFormed(LoginFailedObservations);
  }

  /** The channel data a status reply carries: none unless it arrived and decoded cleanly. */
  function StatusReplyData(reply: Reply): Option<ModemStatusData> {
    if Delivered(reply) && reply.body.value.status.valid then reply.body.value.status.value.data else None
  }

  /** How many channel gauges a status reply yields. */
  function ReportedChannels(reply: Reply): nat {
    match StatusReplyData(reply)
    case Some(data) => ChannelCount(data)
    case None => 0
  }

  /** The three steps of a scrape whose login carried data. */
  lemma AfterLoginWithData(st: Station, login: Step<LoginResponse>, nowMillis: int, report: LogoutReport)
    requires login.result.Success? && login.result.value.data.Some?
    ensures var status := GetModemStatus(st, login.session, nowMillis);
            var logout := Logout(st, status.session);
            AfterLogin(st, login, nowMillis, report)
              == Scrape(SessionObservations(login.result.value, login.result.value.data.value, status.result,
                                            report(logout.result)),
                        logout.session, true)
  {
  }

  /** The gauges of a scrape whose login carried data, in the order they are sent: the
      login message and success, the identity gauges, the channel gauges of the status
      fetch from index 5 on, and the logout report last. */
  lemma ScrapeGaugeLayout(st: Station, login: Step<LoginResponse>, nowMillis: int, report: LogoutReport)
    requires login.result.Success? && login.result.value.data.Some?
    ensures var r := AfterLogin(st, login, nowMillis, report).observations;
            var status := GetModemStatus(st, login.session, nowMillis);
            var channels := StatusObservations(status.result);
            var logout := report(Logout(st, status.session).result);
            && |r| == 5 + |channels| + |logout|
            && r[..2] == LoginObservations(login.result.value)
            && r[2..5] == IdentityObservations(login.result.value.data.value)
            && r[5..5 + |channels|] == channels
            && r[5 + |channels|..] == logout
  {
    AfterLoginWithData(st, login, nowMillis, report);
  }

  /** The `i`-th channel gauge of the status fetch is the scrape's gauge `5 + i`; when the
      fetch yields data, those are the data's channel gauges. */
  lemma ScrapeChannelGaugeAt(st: Station, login: Step<LoginResponse>, nowMillis: int, report: LogoutReport)
    requires login.result.Success? && login.result.value.data.Some?
    ensures var status := GetModemStatus(st, login.session, nowMillis).result;
            var channels := StatusObservations(status);
            var r := AfterLogin(st, login, nowMillis, report).observations;
            && 5 + |channels| <= |r|
            && (forall i :: 0 <= i < |channels| ==> r[5 + i] == channels[i])
            && (FetchedData(status).Some? ==> channels == ChannelObservations(FetchedData(status).value))
  {
    var status := GetModemStatus(st, login.session, nowMillis);
    var channels := StatusObservations(status.result);
    var r := AfterLogin(st, login, nowMillis, report).observations;
    ScrapeGaugeLayout(st, login, nowMillis, report);
    forall i | 0 <= i < |channels| ensures r[5 + i] == channels[i] {
      assert r[5..5 + |channels|][i] == r[5 + i];
    }
  }

  /** A failed login ends the scrape at once: no status fetch and no logout request, and
      both the login and the logout gauges report failure. */
  lemma LoginFailureShortCircuits(st: Station, login: Step<LoginResponse>, nowMillis: int, report: LogoutReport)
    requires login.result.Failure?
    ensures var r := AfterLogin(st, login, nowMillis, report);
            && r.completed && r.session == login.session
            && r.observations == [Observation(LoginSuccess, 0.0, []), Observation(LogoutSuccess, 0.0, [])]
  {
  }

  /** A login reply without `data` makes the identity gauges dereference a nil record: the
      scrape stops after the login gauges, and the session is never logged out. */
  lemma MissingLoginDataAbortsScrape(st: Station, login: Step<LoginResponse>, nowMillis: int, report: LogoutReport)
    requires login.result.Success? && login.result.value.data.None?
    ensures var r := AfterLogin(st, login, nowMillis, report);
            && !r.completed && r.session == login.session
            && r.observations == [Observation(LoginMessage, 1.0, [login.result.value.message]),
                                  Observation(LoginSuccess, 1.0, [])]
  {
  }

  /** After a login with data the scrape makes exactly two more requests, the status GET
      stamped with the clock and the logout POST, whatever the status reply was. */
  lemma ScrapeAlwaysLogsOut(st: Station, login: Step<LoginResponse>, nowMillis: int, report: LogoutReport)
    requires login.result.Success? && login.result.value.data.Some?
    ensures var before, r := login.session.log, AfterLogin(st, login, nowMillis, report);
            && r.completed
            && |r.session.log| == |before| + 2 && r.session.log[..|before|] == before
            && IsCall(r.session.log[|before|], Get, st.url + StatusPath + FormatInt(nowMillis), map[])
            && IsCall(r.session.log[|before| + 1], Post, st.url + LogoutPath, map[])
  {
    AfterLoginWithData(st, login, nowMillis, report);
    var status := GetModemStatus(st, login.session, nowMillis);
    var mid, log := status.session.log, Logout(st, status.session).session.log;
    assert log[..|mid|][|login.session.log|] == mid[|login.session.log|];
    assert log[..|login.session.log|] == mid[..|login.session.log|];
  }

  /** A scrape after a login with data sends five session gauges, the channel gauges of the
      status reply (none when it did not arrive, did not decode, or had no `data`), and two
      logout gauges. */
  lemma ScrapeObservationCount(st: Station, login: Step<LoginResponse>, nowMillis: int)
    requires login.result.Success? && login.result.value.data.Some?
    ensures var r := AfterLogin(st, login, nowMillis, LogoutObservations);
            |r.observations| == 7 + ReportedChannels(r.session.log[|login.session.log|].reply)
  {
    AfterLoginWithData(st, login, nowMillis, LogoutObservations);
    var status := GetModemStatus(st, login.session, nowMillis);
    var mid, log := status.session.log, Logout(st, status.session).session.log;
    assert log[..|mid|][|login.session.log|] == mid[|login.session.log|];
    assert FetchedData(status.result) == StatusReplyData(mid[|login.session.log|].reply);
  }

  /** The logout gauges of a scrape as the source writes them: the last gauge is always
      `logout_success` 1, and the one before it is the logout message exactly when the
      logout reply was accepted, and `logout_success` 0 otherwise. */
  lemma ScrapeLogoutGauges(st: Station, login: Step<LoginResponse>, nowMillis: int)
    requires login.result.Success? && login.result.value.data.Some?
    ensures var r := AfterLogin(st, login, nowMillis, LogoutObservations);
            var accepted := LogoutAccepted(r.session.log[|r.session.log| - 1].reply);
            var n := |r.observations|;
            && n >= 2
            && r.observations[n - 1] == Observation(LogoutSuccess, 1.0, [])
            && (accepted <==> r.observations[n - 2].metric == LogoutMessage)
            && (accepted ==>
                  r.observations[n - 2]
                  == Observation(LogoutMessage, 1.0, [r.session.log[|r.session.log| - 1].reply.body.value.logout.value.message]))
            && (!accepted ==> r.observations[n - 2] == Observation(LogoutSuccess, 0.0, []))
  {
    var response := login.result.value;
    AfterLoginWithData(st, login, nowMillis, LogoutObservations);
    var status := GetModemStatus(st, login.session, nowMillis);
    var logout := Logout(st, status.session);
    var report := LogoutObservations(logout.result);
    var k := 5 + |StatusObservations(status.result)|;
    SessionObservationsEndWithLogout(response, response.data.value, status.result, report, 0);
    SessionObservationsEndWithLogout(response, response.data.value, status.result, report, 1);
    assert |logout.session.log| - 1 == |status.session.log|;
  }

  /** The corrected scrape reports the logout once: its last gauge is `logout_success`,
      1 exactly when the logout reply was accepted, and the logout message precedes it
      when it was. */
  lemma CorrectedScrapeLogoutGauge(st: Station, login: Step<LoginResponse>, nowMillis: int)
    requires login.result.Success? && login.result.value.data.Some?
    ensures var r := AfterLogin(st, login, nowMillis, LogoutObservationsCorrected);
            var accepted := LogoutAccepted(r.session.log[|r.session.log| - 1].reply);
            var n := |r.observations|;
            && n >= 2
            && r.observations[n - 1] == Observation(LogoutSuccess, Bool2Float64(accepted), [])
            && (accepted ==> r.observations[n - 2].metric == LogoutMessage)
  {
    var response := login.result.value;
    var status := GetModemStatus(st, login.session, nowMillis);
    var logout := Logout(st, status.session);
    var report := LogoutObservationsCorrected(logout.result);
    AfterLoginWithData(st, login, nowMillis, LogoutObservationsCorrected);
    assert |logout.session.log| - 1 == |status.session.log|;
    SessionObservationsEndWithLogout(response, response.data.value, status.result, report, |report| - 1);
    if logout.result.Success? {
      SessionObservationsEndWithLogout(response, response.data.value, status.result, report, 0);
    }
  }

  /** A corrected scrape after a login with data sends five session gauges, the channel
      gauges of the status reply, and one logout gauge more when the logout was accepted
      than when it was not. */
  lemma CorrectedScrapeObservationCount(st: Station, login: Step<LoginResponse>, nowMillis: int)
    requires login.result.Success? && login.result.value.data.Some?
    ensures var r := AfterLogin(st, login, nowMillis, LogoutObservationsCorrected);
            var accepted := LogoutAccepted(r.session.log[|r.session.log| - 1].reply);
            |r.observations| == (if accepted then 7 else 6) + ReportedChannels(r.session.log[|login.session.log|].reply)
  {
    var status := GetModemStatus(st, login.session, nowMillis);
    var mid, log := status.session.log, Logout(st, status.session).session.log;
    AfterLoginWithData(st, login, nowMillis, LogoutObservationsCorrected);
    assert log[..|mid|][|login.session.log|] == mid[|login.session.log|];
    assert FetchedData(status.result) == StatusReplyData(mid[|login.session.log|].reply);
    assert |log| - 1 == |mid|;
  }

  /** After a scrape the session's token is the one the device issued last in any reply so
      far, or the initial token if it never issued one. */
  lemma ScrapeTokenIsLastIssued(pbkdf2: Pbkdf2, st: Station, s: Session, nowMillis: int, initial: string)
    requires ProducesKeyLength(pbkdf2)
    requires WellThreaded(initial, s)
    ensures var after := Collect(pbkdf2, st, s, nowMillis).session;
            after.token == LastIssued(ReceivedCookies(after.log)).GetOr(initial)
  {
    var after := Collect(pbkdf2, st, s, nowMillis).session;
    assert WellThreaded(initial, after);
    HarvestIsLastIssued(initial, ReceivedCookies(after.log));
  }
}

