/** The exporter's metric descriptors: fully-qualified names and variable label
    names as `init` builds them, and the descriptor list `Describe` announces. */
module Metrics {

  import opened Wrappers

  datatype Metric =
    | LoginSuccess | LoginMessage | User | Uid | DefaultPassword
    | DownstreamCentralFrequency | DownstreamPower | DownstreamSnr | DownstreamLocked
    | OfdmDownstreamStartFrequency | OfdmDownstreamEndFrequency | OfdmDownstreamCentralFrequency
    | OfdmDownstreamBandwidth | OfdmDownstreamPower | OfdmDownstreamSnr | OfdmDownstreamLocked
    | OfdmUpstreamStartFrequency | OfdmUpstreamEndFrequency | OfdmUpstreamCentralFrequency
    | OfdmUpstreamBandwidth | OfdmUpstreamPower | OfdmUpstreamLocked | UpstreamLocked
    | UpstreamCentralFrequency | UpstreamPower | UpstreamRangingStatus
    | LogoutSuccess | LogoutMessage

  const Prefix: string := "fibertel_"

  // The descriptors' names after the common prefix, as `init` spells them.
  const LoginSuccessName: string := "login_success_bool"
  const LoginMessageName: string := "login_message_info"
  const UserName: string := "user_info"
  const UidName: string := "uid_info"
  const DefaultPasswordName: string := "default_password_bool"
  const DownstreamCentralFrequencyName: string := "downstream_central_frequency_hertz"
  const DownstreamPowerName: string := "downstream_power_dBmV"
  const DownstreamSnrName: string := "downstream_snr_dB"
  const DownstreamLockedName: string := "downstream_locked_bool"
  const OfdmDownstreamStartFrequencyName: string := "ofdm_downstream_start_frequency_hertz"
  const OfdmDownstreamEndFrequencyName: string := "ofdm_downstream_end_frequency_hertz"
  const OfdmDownstreamCentralFrequencyName: string := "ofdm_downstream_central_frequency_hertz"
  const OfdmDownstreamBandwidthName: string := "ofdm_downstream_bandwidth_hertz"
  const OfdmDownstreamPowerName: string := "ofdm_downstream_power_dBmV"
  const OfdmDownstreamSnrName: string := "ofdm_downstream_snr_dB"
  const OfdmDownstreamLockedName: string := "ofdm_downstream_locked_bool"
  const OfdmUpstreamStartFrequencyName: string := "ofdm_upstream_start_frequency_hertz"
  const OfdmUpstreamEndFrequencyName: string := "ofdm_upstream_end_frequency_hertz"
  const OfdmUpstreamCentralFrequencyName: string := "ofdm_upstream_central_frequency_hertz"
  const OfdmUpstreamBandwidthName: string := "ofdm_upstream_bandwidth_hertz"
  const OfdmUpstreamPowerName: string := "ofdm_upstream_power_dBmV"
  const OfdmUpstreamLockedName: string := "ofdm_upstream_locked_bool"
  const UpstreamLockedName: string := "upstream_locked_bool"
  const UpstreamCentralFrequencyName: string := "upstream_central_frequency_hertz"
  const UpstreamPowerName: string := "upstream_power_dBmV"
  const UpstreamRangingStatusName: string := "upstream_ranging_status_info"
  const LogoutSuccessName: string := "logout_success_bool"
  const LogoutMessageName: string := "logout_message_info"

  /** The descriptor's name after the common prefix. */
  function Suffix(m: Metric): (r: string)
    ensures r != []
  {
    match m
    case LoginSuccess => LoginSuccessName
    case LoginMessage => LoginMessageName
    case User => UserName
    case Uid => UidName
    case DefaultPassword => DefaultPasswordName
    case DownstreamCentralFrequency => DownstreamCentralFrequencyName
    case DownstreamPower => DownstreamPowerName
    case DownstreamSnr => DownstreamSnrName
    case DownstreamLocked => DownstreamLockedName
    case OfdmDownstreamStartFrequency => OfdmDownstreamStartFrequencyName
    case OfdmDownstreamEndFrequency => OfdmDownstreamEndFrequencyName
    case OfdmDownstreamCentralFrequency => OfdmDownstreamCentralFrequencyName
    case OfdmDownstreamBandwidth => OfdmDownstreamBandwidthName
    case OfdmDownstreamPower => OfdmDownstreamPowerName
    case OfdmDownstreamSnr => OfdmDownstreamSnrName
    case OfdmDownstreamLocked => OfdmDownstreamLockedName
    case OfdmUpstreamStartFrequency => OfdmUpstreamStartFrequencyName
    case OfdmUpstreamEndFrequency => OfdmUpstreamEndFrequencyName
    case OfdmUpstreamCentralFrequency => OfdmUpstreamCentralFrequencyName
    case OfdmUpstreamBandwidth => OfdmUpstreamBandwidthName
    case OfdmUpstreamPower => OfdmUpstreamPowerName
    case OfdmUpstreamLocked => OfdmUpstreamLockedName
    case UpstreamLocked => UpstreamLockedName
    case UpstreamCentralFrequency => UpstreamCentralFrequencyName
    case UpstreamPower => UpstreamPowerName
    case UpstreamRangingStatus => UpstreamRangingStatusName
    case LogoutSuccess => LogoutSuccessName
    case LogoutMessage => LogoutMessageName
  }

  /** The descriptor's fully-qualified name. */
  function FqName(m: Metric): (r: string)
    ensures |r| > |Prefix| && r[..|Prefix|] == Prefix
  {
    Prefix + Suffix(m)
  }

  /** Recovers a descriptor from its name after the prefix: by the name's length, and where
      names share a length, by one character at which they differ. It is a left inverse of
      `Suffix`, which is all that distinct names need. */
  function NameOf(s: string): Option<Metric> {
    if |s| == 8 then Some(Uid)
    else if |s| == 9 then Some(User)
    else if |s| == 17 then Some(DownstreamSnr)
    else if |s| == 18 then
      if s[6] == 's' then Some(LoginSuccess)
      else Some(LoginMessage)
    else if |s| == 19 then
      if s[8] == '_' then Some(UpstreamPower)
      else if s[8] == 'u' then Some(LogoutSuccess)
      else Some(LogoutMessage)
    else if |s| == 20 then Some(UpstreamLocked)
    else if |s| == 21 then
      if s[1] == 'e' then Some(DefaultPassword)
      else Some(DownstreamPower)
    else if |s| == 22 then
      if s[0] == 'd' then Some(DownstreamLocked)
      else Some(OfdmDownstreamSnr)
    else if |s| == 24 then Some(OfdmUpstreamPower)
    else if |s| == 25 then Some(OfdmUpstreamLocked)
    else if |s| == 26 then Some(OfdmDownstreamPower)
    else if |s| == 27 then Some(OfdmDownstreamLocked)
    else if |s| == 28 then Some(UpstreamRangingStatus)
    else if |s| == 29 then Some(OfdmUpstreamBandwidth)
    else if |s| == 31 then Some(OfdmDownstreamBandwidth)
    else if |s| == 32 then Some(UpstreamCentralFrequency)
    else if |s| == 33 then Some(OfdmUpstreamEndFrequency)
    else if |s| == 34 then Some(DownstreamCentralFrequency)
    else if |s| == 35 then
      if s[5] == 'd' then Some(OfdmDownstreamEndFrequency)
      else Some(OfdmUpstreamStartFrequency)
    else if |s| == 37 then
      if s[5] == 'd' then Some(OfdmDownstreamStartFrequency)
      else Some(OfdmUpstreamCentralFrequency)
    else if |s| == 39 then Some(OfdmDownstreamCentralFrequency)
    else None
  }

  /** Every descriptor's name decodes back to it. */
  lemma SuffixDecodes(m: Metric)
    ensures NameOf(Suffix(m)) == Some(m)
  {
    if m.LoginSuccess? || m.LoginMessage? || m.User? || m.Uid? || m.DefaultPassword? {
      SessionNamesDecode(m);
    } else if m.DownstreamCentralFrequency? || m.DownstreamPower? || m.DownstreamSnr? ||
              m.DownstreamLocked? {
      DownstreamNamesDecode(m);
    } else if m.OfdmDownstreamStartFrequency? || m.OfdmDownstreamEndFrequency? ||
              m.OfdmDownstreamCentralFrequency? || m.OfdmDownstreamBandwidth? ||
              m.OfdmDownstreamPower? || m.OfdmDownstreamSnr? || m.OfdmDownstreamLocked? {
      OfdmDownstreamNamesDecode(m);
    } else if m.OfdmUpstreamStartFrequency? || m.OfdmUpstreamEndFrequency? ||
              m.OfdmUpstreamCentralFrequency? || m.OfdmUpstreamBandwidth? ||
              m.OfdmUpstreamPower? || m.OfdmUpstreamLocked? {
      OfdmUpstreamNamesDecode(m);
    } else if m.UpstreamLocked? || m.UpstreamCentralFrequency? || m.UpstreamPower? ||
              m.UpstreamRangingStatus? {
      UpstreamNamesDecode(m);
    } else {
      LogoutNamesDecode(m);
    }
  }

  // `SuffixDecodes` one descriptor group at a time, in the groups `init` declares them.
  lemma SessionNamesDecode(m: Metric)
    requires m.LoginSuccess? || m.LoginMessage? || m.User? || m.Uid? || m.DefaultPassword?
    ensures NameOf(Suffix(m)) == Some(m)
  {
  }

  lemma DownstreamNamesDecode(m: Metric)
    requires m.DownstreamCentralFrequency? || m.DownstreamPower? || m.DownstreamSnr? ||
             m.DownstreamLocked?
    ensures NameOf(Suffix(m)) == Some(m)
  {
  }

  lemma OfdmDownstreamNamesDecode(m: Metric)
    requires m.OfdmDownstreamStartFrequency? || m.OfdmDownstreamEndFrequency? ||
             m.OfdmDownstreamCentralFrequency? || m.OfdmDownstreamBandwidth? ||
             m.OfdmDownstreamPower? || m.OfdmDownstreamSnr? || m.OfdmDownstreamLocked?
    ensures NameOf(Suffix(m)) == Some(m)
  {
  }

  lemma OfdmUpstreamNamesDecode(m: Metric)
    requires m.OfdmUpstreamStartFrequency? || m.OfdmUpstreamEndFrequency? ||
             m.OfdmUpstreamCentralFrequency? || m.OfdmUpstreamBandwidth? ||
             m.OfdmUpstreamPower? || m.OfdmUpstreamLocked?
    ensures NameOf(Suffix(m)) == Some(m)
  {
  }

  lemma UpstreamNamesDecode(m: Metric)
    requires m.UpstreamLocked? || m.UpstreamCentralFrequency? || m.UpstreamPower? ||
             m.UpstreamRangingStatus?
    ensures NameOf(Suffix(m)) == Some(m)
  {
  }

  lemma LogoutNamesDecode(m: Metric)
    requires m.LogoutSuccess? || m.LogoutMessage?
    ensures NameOf(Suffix(m)) == Some(m)
  {
  }

  /** Distinct descriptors have distinct fully-qualified names, as the registry requires
      of the descriptors `init` builds. */
  lemma FqNameInjective(a: Metric, b: Metric)
    ensures FqName(a) == FqName(b) ==> a == b
  {
    SuffixDecodes(a);
    SuffixDecodes(b);
    if FqName(a) == FqName(b) {
      assert Suffix(a) == FqName(a)[|Prefix|..];
      assert Suffix(b) == FqName(b)[|Prefix|..];
    }
  }

  const DownstreamChannelLabels: seq<string> := ["id", "channel_id", "fft", "channel_type"]
  const OfdmChannelLabels: seq<string> := ["id", "channel_id_ofdm", "fft", "channel_type"]
  const UpstreamLabels: seq<string> := ["id", "channel_id_up", "fft", "channel_type"]

  /** The descriptor's variable label names; an observation must supply one value per name.
      The indicators of the session carry none, the messages and identities one, every
      channel descriptor the four channel labels, and the ranging status a fifth, `status`. */
  function LabelNames(m: Metric): (r: seq<string>)
    ensures m in {LoginSuccess, DefaultPassword, LogoutSuccess} ==> r == []
    ensures m in {LoginMessage, LogoutMessage} ==> r == ["message"]
    ensures m in {User, Uid} ==> |r| == 1
    ensures 5 <= Ordinal(m) < 26 && m != UpstreamRangingStatus ==> |r| == 4
    ensures m == UpstreamRangingStatus ==> |r| == 5 && r[..4] == UpstreamLabels && r[4] == "status"
    ensures 5 <= Ordinal(m) < 26 ==> r[0] == "id" && r[2] == "fft" && r[3] == "channel_type"
  {
    match m
    case LoginSuccess | DefaultPassword | LogoutSuccess => []
    case LoginMessage | LogoutMessage => ["message"]
    case User => ["username"]
    case Uid => ["uid"]
    case DownstreamCentralFrequency | DownstreamPower | DownstreamSnr | DownstreamLocked =>
      DownstreamChannelLabels
    case UpstreamCentralFrequency | UpstreamPower | UpstreamLocked => UpstreamLabels
    case UpstreamRangingStatus => UpstreamLabels + ["status"]
    case _ => OfdmChannelLabels
  }

  /** Each descriptor's position in `Describe`'s list once the duplicate SNR entry is
      replaced by the downstream lock descriptor and the upstream lock descriptor follows
      the ranging-status one. */
  function Ordinal(m: Metric): (i: nat)
    ensures i < 28
  {
    match m
    case LoginSuccess => 0
    case LoginMessage => 1
    case User => 2
    case Uid => 3
    case DefaultPassword => 4
    case DownstreamCentralFrequency => 5
    case DownstreamPower => 6
    case DownstreamSnr => 7
    case DownstreamLocked => 8
    case OfdmDownstreamStartFrequency => 9
    case OfdmDownstreamEndFrequency => 10
    case OfdmDownstreamCentralFrequency => 11
    case OfdmDownstreamBandwidth => 12
    case OfdmDownstreamPower => 13
    case OfdmDownstreamSnr => 14
    case OfdmDownstreamLocked => 15
    case OfdmUpstreamStartFrequency => 16
    case OfdmUpstreamEndFrequency => 17
    case OfdmUpstreamCentralFrequency => 18
    case OfdmUpstreamBandwidth => 19
    case OfdmUpstreamPower => 20
    case OfdmUpstreamLocked => 21
    case UpstreamCentralFrequency => 22
    case UpstreamPower => 23
    case UpstreamRangingStatus => 24
    case UpstreamLocked => 25
    case LogoutSuccess => 26
    case LogoutMessage => 27
  }

  const SessionDescriptors: seq<Metric> := [LoginSuccess, LoginMessage, User, Uid, DefaultPassword]
  const DownstreamDescriptors: seq<Metric> :=
    [DownstreamCentralFrequency, DownstreamPower, DownstreamSnr, DownstreamLocked]
  const OfdmDownstreamDescriptors: seq<Metric> :=
    [OfdmDownstreamStartFrequency, OfdmDownstreamEndFrequency, OfdmDownstreamCentralFrequency,
     OfdmDownstreamBandwidth, OfdmDownstreamPower, OfdmDownstreamSnr, OfdmDownstreamLocked]
  const OfdmUpstreamDescriptors: seq<Metric> :=
    [OfdmUpstreamStartFrequency, OfdmUpstreamEndFrequency, OfdmUpstreamCentralFrequency,
     OfdmUpstreamBandwidth, OfdmUpstreamPower, OfdmUpstreamLocked]
  const UpstreamDescriptors: seq<Metric> :=
    [UpstreamCentralFrequency, UpstreamPower, UpstreamRangingStatus, UpstreamLocked]
  const LogoutDescriptors: seq<Metric> := [LogoutSuccess, LogoutMessage]

  /** The descriptors `Describe` sends before its second SNR entry. */
  const DescribedHead: seq<Metric> :=
    SessionDescriptors + [DownstreamCentralFrequency, DownstreamPower, DownstreamSnr]
  /** The descriptors `Describe` sends between its second SNR entry and the logout descriptors. */
  const DescribedMiddle: seq<Metric> :=
    OfdmDownstreamDescriptors + OfdmUpstreamDescriptors + [UpstreamCentralFrequency, UpstreamPower, UpstreamRangingStatus]

  /** The descriptors announced to the registry, as listed by `Describe`: 27 entries, the
      downstream SNR descriptor where the downstream lock descriptor belongs, and no
      upstream lock descriptor. */
  function Describe(): (r: seq<Metric>)
    ensures |r| == 27
    ensures exists i, j :: 0 <= i < j < |r| && r[i] == DownstreamSnr && r[j] == DownstreamSnr
    ensures DownstreamLocked !in r && UpstreamLocked !in r
  {
    var r := DescribedHead + [DownstreamSnr] + DescribedMiddle + LogoutDescriptors;
    assert r[7] == DownstreamSnr && r[8] == DownstreamSnr;
    r
  }

  /** The descriptor list with the duplicate replaced by the missing lock descriptors:
      `Describe`'s list with the downstream lock descriptor in place of the second SNR
      entry and the upstream lock descriptor after the ranging status, so that every
      descriptor `init` builds appears exactly once. */
  function DescribeCorrected(): (r: seq<Metric>)
    ensures |r| == 28
    ensures forall m: Metric :: r[Ordinal(m)] == m
    ensures forall i :: 0 <= i < |r| ==> Ordinal(r[i]) == i
  {
    SessionDescriptors + DownstreamDescriptors + OfdmDownstreamDescriptors
      + OfdmUpstreamDescriptors + UpstreamDescriptors + LogoutDescriptors
  }

  /** The corrected list differs from `Describe`'s in two places only: the downstream lock
      descriptor takes the second SNR entry's slot, and the upstream lock descriptor is
      inserted after the ranging status. */
  lemma DescribeCorrectedRestoresLocks()
    ensures var d := Describe();
            DescribeCorrected() == d[..8] + [DownstreamLocked] + d[9..25] + [UpstreamLocked] + d[25..]
  {
    DescribeCorrectedBlocks();
    SlicesAroundOne(DescribedHead, DownstreamSnr, DescribedMiddle, LogoutDescriptors);
  }

  lemma DescribeCorrectedBlocks()
    ensures DescribeCorrected()
            == DescribedHead + [DownstreamLocked] + DescribedMiddle + [UpstreamLocked] + LogoutDescriptors
  {
    assert DownstreamDescriptors == [DownstreamCentralFrequency, DownstreamPower, DownstreamSnr] + [DownstreamLocked];
    assert UpstreamDescriptors == [UpstreamCentralFrequency, UpstreamPower, UpstreamRangingStatus] + [UpstreamLocked];
  }

  /** Slicing a concatenation with one element between `a` and `b` back into its parts. */
  lemma SlicesAroundOne<T>(a: seq<T>, x: T, b: seq<T>, c: seq<T>)
    ensures var s := a + [x] + b + c;
            && s[..|a|] == a && s[|a| + 1..|a| + 1 + |b|] == b && s[|a| + 1 + |b|..] == c
  {
    var s := a + [x] + b + c;
    assert s[..|a|] == a;
    assert s[|a| + 1..|a| + 1 + |b|] == b;
    assert s[|a| + 1 + |b|..] == c;
  }

  /** Every descriptor except the two lock descriptors of the legacy channels is announced. */
  lemma DescribeOmitsOnlyLegacyLocks(m: Metric)
    ensures m in Describe() <==> m != DownstreamLocked && m != UpstreamLocked
  {
    var d := Describe();
    assert d == DescribedHead + [DownstreamSnr] + DescribedMiddle + LogoutDescriptors;
    match m
    case LoginSuccess | LoginMessage | User | Uid | DefaultPassword =>
      assert m in SessionDescriptors;
    case DownstreamCentralFrequency | DownstreamPower | DownstreamSnr =>
      assert m in DescribedHead;
    case OfdmDownstreamStartFrequency | OfdmDownstreamEndFrequency | OfdmDownstreamCentralFrequency
       | OfdmDownstreamBandwidth | OfdmDownstreamPower | OfdmDownstreamSnr | OfdmDownstreamLocked =>
      assert m in OfdmDownstreamDescriptors && m in DescribedMiddle;
    case OfdmUpstreamStartFrequency | OfdmUpstreamEndFrequency | OfdmUpstreamCentralFrequency
       | OfdmUpstreamBandwidth | OfdmUpstreamPower | OfdmUpstreamLocked =>
      assert m in OfdmUpstreamDescriptors && m in DescribedMiddle;
    case UpstreamCentralFrequency | UpstreamPower | UpstreamRangingStatus =>
      assert m in DescribedMiddle;
    case LogoutSuccess | LogoutMessage =>
      assert m in LogoutDescriptors;
    case DownstreamLocked | UpstreamLocked =>
  }
}
