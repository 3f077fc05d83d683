/** The factory that negotiates an A2DP offload configuration: it tries its codecs on what the remote
    offers, the hinted codec first. */
module OffloadFactory {
  import opened Options
  import opened A2dpBitField
  import opened A2dpTypes
  import SbcFormat
  import SbcCodec
  import SbcOffload
  import AacCodec
  import AacOffload

  // The codecs implemented here, and whatever else a remote may offer.
  datatype CodecId = AAC | SBC | Foreign(id: int)

  datatype RemoteCapabilities = RemoteCapabilities(id: CodecId, seid: int, capabilities: seq<bv8>)

  datatype Hint = Hint(codecId: CodecId, codecParameters: Option<CodecParameters>)

  datatype Configuration = Configuration(
    id: CodecId, parameters: CodecParameters, remoteSeid: int, configuration: seq<bool>)

  // ----- dispatch over the codecs -----

  function Build(id: CodecId, remote: seq<bool>, hint: Option<CodecParameters>): Option<seq<bool>> {
    match id
    case AAC =>
      (match AacCodec.BuildConfiguration(remote, hint) case Some(c) => Some(c) case None => None)
    case SBC =>
      (match SbcCodec.BuildConfiguration(remote, hint) case Some(c) => Some(c) case None => None)
    case Foreign(_) => None
  }

  function Parse(id: CodecId, config: seq<bool>): Parsed<CodecParameters> {
    match id
    case AAC =>
      (match AacCodec.ParseConfiguration(config)
       case Accepted(p) => Accepted(p.codec) case Rejected(s) => Rejected(s))
    case SBC =>
      (match SbcCodec.ParseConfiguration(config)
       case Accepted(p) => Accepted(p.codec) case Rejected(s) => Rejected(s))
    case Foreign(_) => Rejected(BAD_LENGTH)
  }

  lemma AacConfigurationParses(remote: seq<bool>, hint: Option<CodecParameters>)
    requires AacCodec.BuildConfiguration(remote, hint).Some?
    ensures AacCodec.ParseConfiguration(AacCodec.BuildConfiguration(remote, hint).value).Accepted?
  {
    AacCodec.BuiltParses(remote, hint);
  }

  lemma SbcConfigurationParses(remote: seq<bool>, hint: Option<CodecParameters>)
    requires SbcCodec.BuildConfiguration(remote, hint).Some?
    ensures SbcCodec.ParseConfiguration(SbcCodec.BuildConfiguration(remote, hint).value).Accepted?
  {
    var _, _, _ := SbcCodec.BuiltParses(remote, hint);
  }

  /** The assertion in the factory never fires: whatever a codec builds from any remote element and
      any hint, it parses. */
  lemma BuiltConfigurationParses(id: CodecId, remote: seq<bool>, hint: Option<CodecParameters>)
    ensures Build(id, remote, hint).Some? ==> Parse(id, Build(id, remote, hint).value).Accepted?
  {
    match id
    case AAC =>
      if AacCodec.BuildConfiguration(remote, hint).Some? { AacConfigurationParses(remote, hint); }
    case SBC =>
      if SbcCodec.BuildConfiguration(remote, hint).Some? { SbcConfigurationParses(remote, hint); }
    case Foreign(_) =>
  }

  // ----- the order of trial -----

  function Without(ranked: seq<CodecId>, id: CodecId): seq<CodecId> {
    if ranked == [] then []
    else (if ranked[0] != id then [ranked[0]] else []) + Without(ranked[1..], id)
  }

  function Tried(ranked: seq<CodecId>, hinted: CodecId): seq<CodecId> {
    (if hinted in ranked then [hinted] else []) + Without(ranked, hinted)
  }

  ghost predicate Distinct(ranked: seq<CodecId>) {
    forall i, j :: 0 <= i < j < |ranked| ==> ranked[i] != ranked[j]
  }

  lemma {:induction false} WithoutAbsent(ranked: seq<CodecId>, id: CodecId)
    requires id !in ranked
    ensures Without(ranked, id) == ranked
  {
    if ranked != [] { WithoutAbsent(ranked[1..], id); }
  }

  lemma {:induction false} WithoutAt(ranked: seq<CodecId>, k: nat)
    requires Distinct(ranked) && k < |ranked|
    ensures Without(ranked, ranked[k]) == ranked[..k] + ranked[k + 1..]
  {
    var rest := ranked[1..];
    if k == 0 {
      assert ranked[0] !in rest;
      WithoutAbsent(rest, ranked[0]);
    } else {
      assert ranked[0] != ranked[k] && rest[k - 1] == ranked[k];
      WithoutAt(rest, k - 1);
      SkipFirst(ranked, k);
    }
  }

  lemma SkipFirst(s: seq<CodecId>, k: nat)
    requires 0 < k < |s|
    ensures [s[0]] + (s[1..][..k - 1] + s[1..][k..]) == s[..k] + s[k + 1..]
  {}

  /** The tried list is the ranked list with the hinted codec moved to the front, and so a permutation
      of it. */
  lemma TriedOrder(ranked: seq<CodecId>, k: nat)
    requires Distinct(ranked) && k < |ranked|
    ensures Tried(ranked, ranked[k]) == [ranked[k]] + ranked[..k] + ranked[k + 1..]
    ensures multiset(Tried(ranked, ranked[k])) == multiset(ranked)
  {
    WithoutAt(ranked, k);
    MoveToFront(ranked[..k], ranked[k], ranked[k + 1..]);
    assert ranked == ranked[..k] + [ranked[k]] + ranked[k + 1..];
    assert [ranked[k]] + (ranked[..k] + ranked[k + 1..]) == [ranked[k]] + ranked[..k] + ranked[k + 1..];
  }

  lemma MoveToFront(before: seq<CodecId>, id: CodecId, after: seq<CodecId>)
    ensures multiset([id] + before + after) == multiset(before + [id] + after)
  {}

  // ----- the outcome -----

  // The first entry that the remote offers for a codec.
  function FirstOffer(remotes: seq<RemoteCapabilities>, id: CodecId): (k: nat)
    ensures k <= |remotes|
    ensures k < |remotes| ==> remotes[k].id == id
    ensures forall i :: 0 <= i < k ==> remotes[i].id != id
  {
    if remotes == [] || remotes[0].id == id then 0 else 1 + FirstOffer(remotes[1..], id)
  }

  // What one codec makes of the remote's offers.
  function Attempt(id: CodecId, remotes: seq<RemoteCapabilities>, hint: Hint): Option<Configuration> {
    var k := FirstOffer(remotes, id);
    if k == |remotes| then None
    else
      match Build(id, Bits(remotes[k].capabilities), hint.codecParameters)
      case None => None
      case Some(c) =>
        BuiltConfigurationParses(id, Bits(remotes[k].capabilities), hint.codecParameters);
        Some(Configuration(id, Parse(id, c).parameters, remotes[k].seid, c))
  }

  // The first result there is, going through a list.
  function FirstSome<T>(attempt: CodecId -> Option<T>, tried: seq<CodecId>): Option<T> {
    if tried == [] then None
    else if attempt(tried[0]).Some? then attempt(tried[0])
    else FirstSome(attempt, tried[1..])
  }

  lemma {:induction false} NoneIff<T>(attempt: CodecId -> Option<T>, tried: seq<CodecId>)
    ensures FirstSome(attempt, tried).None? <==> forall c :: c in tried ==> attempt(c).None?
  {
    if tried != [] {
      NoneIff(attempt, tried[1..]);
      assert tried == [tried[0]] + tried[1..];
    }
  }

  lemma {:induction false} SomeAt<T>(attempt: CodecId -> Option<T>, tried: seq<CodecId>, k: nat)
    requires k < |tried| && attempt(tried[k]).Some? && forall c :: c in tried[..k] ==> attempt(c).None?
    ensures FirstSome(attempt, tried) == attempt(tried[k])
  {
    if k > 0 {
      assert tried[0] in tried[..k];
      assert tried[..k] == [tried[0]] + tried[1..][..k - 1];
      SomeAt(attempt, tried[1..], k - 1);
    }
  }

  function Attempts(remotes: seq<RemoteCapabilities>, hint: Hint): CodecId -> Option<Configuration> {
    (id: CodecId) => Attempt(id, remotes, hint)
  }

  function FirstSuccess(tried: seq<CodecId>, remotes: seq<RemoteCapabilities>, hint: Hint): Option<Configuration> {
    FirstSome(Attempts(remotes, hint), tried)
  }

  lemma FirstSuccessStep(tried: seq<CodecId>, i: nat, remotes: seq<RemoteCapabilities>, hint: Hint)
    requires i < |tried|
    ensures var r := Attempt(tried[i], remotes, hint);
            FirstSuccess(tried[i..], remotes, hint) ==
            if r.Some? then r else FirstSuccess(tried[i + 1..], remotes, hint)
  {
    assert tried[i..][1..] == tried[i + 1..];
  }

  /** The outcome is that of the first codec in the list whose attempt succeeds, and there is none
      exactly when all attempts fail. */
  lemma FirstSuccessIs(tried: seq<CodecId>, remotes: seq<RemoteCapabilities>, hint: Hint)
    ensures var r := FirstSuccess(tried, remotes, hint);
            var attempt := Attempts(remotes, hint);
            && (r.None? <==> forall c :: c in tried ==> attempt(c).None?)
            && forall k :: 0 <= k < |tried| && attempt(tried[k]).Some? &&
                           (forall c :: c in tried[..k] ==> attempt(c).None?)
                 ==> r == attempt(tried[k])
  {
    var attempt := Attempts(remotes, hint);
    NoneIff(attempt, tried);
    forall k | 0 <= k < |tried| && attempt(tried[k]).Some? && (forall c :: c in tried[..k] ==> attempt(c).None?)
      ensures FirstSuccess(tried, remotes, hint) == attempt(tried[k])
    {
      SomeAt(attempt, tried, k);
    }
  }

  /** A negotiated configuration parses to the parameters returned with it, comes from the first offer
      for its codec, and carries the seid of that offer. */
  lemma ConfigurationIsConsistent(ranked: seq<CodecId>, remotes: seq<RemoteCapabilities>, hint: Hint)
    requires FirstSuccess(Tried(ranked, hint.codecId), remotes, hint).Some?
    ensures var r := FirstSuccess(Tried(ranked, hint.codecId), remotes, hint).value;
            var k := FirstOffer(remotes, r.id);
            && r.id in ranked && k < |remotes| && r.remoteSeid == remotes[k].seid
            && Build(r.id, Bits(remotes[k].capabilities), hint.codecParameters) == Some(r.configuration)
            && Parse(r.id, r.configuration) == Accepted(r.parameters)
  {
    SuccessIsAttempt(Tried(ranked, hint.codecId), remotes, hint);
    var r := FirstSuccess(Tried(ranked, hint.codecId), remotes, hint).value;
    WithoutIsPart(ranked, hint.codecId);
    BuiltConfigurationParses(r.id, Bits(remotes[FirstOffer(remotes, r.id)].capabilities), hint.codecParameters);
  }

  lemma {:induction false} WithoutIsPart(ranked: seq<CodecId>, id: CodecId)
    ensures forall c :: c in Without(ranked, id) ==> c in ranked
  {
    if ranked != [] { WithoutIsPart(ranked[1..], id); }
  }

  lemma TriedIsPart(ranked: seq<CodecId>, id: CodecId)
    ensures forall k :: 0 <= k < |Tried(ranked, id)| ==> Tried(ranked, id)[k] in ranked
  {
    WithoutIsPart(ranked, id);
  }

  lemma {:induction false} SomeComesFrom<T>(attempt: CodecId -> Option<T>, tried: seq<CodecId>) returns (c: CodecId)
    requires FirstSome(attempt, tried).Some?
    ensures c in tried && FirstSome(attempt, tried) == attempt(c)
  {
    c := tried[0];
    if attempt(c).None? { c := SomeComesFrom(attempt, tried[1..]); }
  }

  lemma SuccessIsAttempt(tried: seq<CodecId>, remotes: seq<RemoteCapabilities>, hint: Hint)
    requires FirstSuccess(tried, remotes, hint).Some?
    ensures var r := FirstSuccess(tried, remotes, hint);
            r.value.id in tried && r == Attempt(r.value.id, remotes, hint)
  {
    var c := SomeComesFrom(Attempts(remotes, hint), tried);
    assert Attempt(c, remotes, hint).value.id == c;
  }

  // ----- the outcome in terms of the codecs -----

  // The remote's first offer for the codec is an element of that codec which shares a bit of every field
  // with it.
  ghost predicate Negotiable(id: CodecId, remotes: seq<RemoteCapabilities>) {
    var k := FirstOffer(remotes, id);
    && k < |remotes|
    && var offer := Bits(remotes[k].capabilities);
       match id
       case AAC => |offer| == 48 && AacCodec.AllFieldsShared(offer)
       case SBC => |offer| == 32 && SbcCodec.AllFieldsShared(offer)
       case Foreign(_) => false
  }

  lemma AttemptIff(id: CodecId, remotes: seq<RemoteCapabilities>, hint: Hint)
    ensures Attempt(id, remotes, hint).Some? <==> Negotiable(id, remotes)
  {
    var k := FirstOffer(remotes, id);
    if k < |remotes| {
      var offer := Bits(remotes[k].capabilities);
      AacCodec.BuildsIff(offer, hint.codecParameters);
      SbcCodec.BuildsIff(offer, hint.codecParameters);
    }
  }

  lemma {:induction false} WithoutIff(ranked: seq<CodecId>, id: CodecId)
    ensures forall c :: c in Without(ranked, id) <==> c in ranked && c != id
  {
    if ranked != [] {
      WithoutIff(ranked[1..], id);
      assert ranked == [ranked[0]] + ranked[1..];
    }
  }

  /** There is a configuration exactly if the remote's first offer for some ranked codec is one that this
      codec can use; and if that holds for the hinted codec, it is that codec's. */
  lemma NegotiatesIff(ranked: seq<CodecId>, remotes: seq<RemoteCapabilities>, hint: Hint)
    ensures var r := FirstSuccess(Tried(ranked, hint.codecId), remotes, hint);
            && (r.Some? <==> exists c :: c in ranked && Negotiable(c, remotes))
            && (hint.codecId in ranked && Negotiable(hint.codecId, remotes) ==> r.Some? && r.value.id == hint.codecId)
  {
    var tried, attempt := Tried(ranked, hint.codecId), Attempts(remotes, hint);
    WithoutIff(ranked, hint.codecId);
    NoneIff(attempt, tried);
    assert forall c :: c in tried <==> c in ranked;
    forall c: CodecId
      ensures attempt(c).Some? <==> Negotiable(c, remotes)
    {
      AttemptIff(c, remotes, hint);
    }
    if hint.codecId in ranked && Negotiable(hint.codecId, remotes) {
      assert tried[..0] == [] && tried[0] == hint.codecId;
      SomeAt(attempt, tried, 0);
    }
  }

  /** The configuration returned for a codec is what that very codec builds from the remote's first offer
      for it, with the parameters that it parses from it. */
  lemma ConfigurationIsTheCodecs(ranked: seq<CodecId>, remotes: seq<RemoteCapabilities>, hint: Hint)
    requires FirstSuccess(Tried(ranked, hint.codecId), remotes, hint).Some?
    ensures var r := FirstSuccess(Tried(ranked, hint.codecId), remotes, hint).value;
            r.id in ranked && (r.id == AAC || r.id == SBC) && FirstOffer(remotes, r.id) < |remotes|
    ensures var r := FirstSuccess(Tried(ranked, hint.codecId), remotes, hint).value;
            var offer := remotes[FirstOffer(remotes, r.id)];
            var built := SbcCodec.BuildConfiguration(Bits(offer.capabilities), hint.codecParameters);
            r.id == SBC ==>
              && r.remoteSeid == offer.seid && built.Some? && built.value == r.configuration
              && SbcCodec.ParseConfiguration(r.configuration).Accepted?
              && SbcCodec.ParseConfiguration(r.configuration).parameters.codec == r.parameters
    ensures var r := FirstSuccess(Tried(ranked, hint.codecId), remotes, hint).value;
            var offer := remotes[FirstOffer(remotes, r.id)];
            var built := AacCodec.BuildConfiguration(Bits(offer.capabilities), hint.codecParameters);
            r.id == AAC ==>
              && r.remoteSeid == offer.seid && built.Some? && built.value == r.configuration
              && AacCodec.ParseConfiguration(r.configuration).Accepted?
              && AacCodec.ParseConfiguration(r.configuration).parameters.codec == r.parameters
  {
    ConfigurationIsConsistent(ranked, remotes, hint);
    var r := FirstSuccess(Tried(ranked, hint.codecId), remotes, hint).value;
    DispatchIs(r.id, Bits(remotes[FirstOffer(remotes, r.id)].capabilities), hint.codecParameters, r.configuration,
               r.parameters);
  }

  lemma DispatchIs(id: CodecId, offer: seq<bool>, hint: Option<CodecParameters>, c: seq<bool>, p: CodecParameters)
    requires Build(id, offer, hint) == Some(c) && Parse(id, c) == Accepted(p)
    ensures id == AAC || id == SBC
    ensures id == SBC ==>
              && SbcCodec.BuildConfiguration(offer, hint).Some? && SbcCodec.BuildConfiguration(offer, hint).value == c
              && SbcCodec.ParseConfiguration(c).Accepted? && SbcCodec.ParseConfiguration(c).parameters.codec == p
    ensures id == AAC ==>
              && AacCodec.BuildConfiguration(offer, hint).Some? && AacCodec.BuildConfiguration(offer, hint).value == c
              && AacCodec.ParseConfiguration(c).Accepted? && AacCodec.ParseConfiguration(c).parameters.codec == p
  {}

  // ----- the factory object -----

  class A2dpOffloadCodecFactory {
    const aac: AacOffload.A2dpOffloadCodecAac
    const sbc: SbcOffload.A2dpOffloadCodecSbc
    var rankedCodecs: seq<CodecId>

    ghost predicate Valid()
      reads this, aac, sbc, aac.capabilities, sbc.capabilities
    {
      aac.Valid() && sbc.Valid() && Distinct(rankedCodecs) && forall c :: c in rankedCodecs ==> c == AAC || c == SBC
    }

    constructor ()
      ensures Valid() && rankedCodecs == [AAC, SBC]
    {
      aac := new AacOffload.A2dpOffloadCodecAac();
      sbc := new SbcOffload.A2dpOffloadCodecSbc();
      rankedCodecs := [AAC, SBC];
    }

    method GetCodec(id: CodecId) returns (codec: Option<CodecId>)
      ensures codec == if id in rankedCodecs then Some(id) else None
    {
      for i := 0 to |rankedCodecs|
        invariant id !in rankedCodecs[..i]
      {
        if rankedCodecs[i] == id { return Some(rankedCodecs[i]); }
      }
      codec := None;
    }

    // The list that GetConfiguration goes through. The source compares with the codec it found, so a
    // hint for an unranked codec has no meaning there.
    method Rank(hinted: CodecId) returns (codecs: seq<CodecId>)
      requires hinted in rankedCodecs
      ensures codecs == Tried(rankedCodecs, hinted)
    {
      codecs := [hinted];
      for i := 0 to |rankedCodecs|
        invariant codecs + Without(rankedCodecs[i..], hinted) == Tried(rankedCodecs, hinted)
      {
        assert rankedCodecs[i..][1..] == rankedCodecs[i + 1..];
        if rankedCodecs[i] != hinted {
          codecs := codecs + [rankedCodecs[i]];
        }
      }
    }

    method FindOffer(remotes: seq<RemoteCapabilities>, id: CodecId) returns (k: nat)
      ensures k == FirstOffer(remotes, id)
    {
      k := 0;
      while k < |remotes| && remotes[k].id != id
        invariant k <= |remotes|
        invariant forall i :: 0 <= i < k ==> remotes[i].id != id
      {
        k := k + 1;
      }
    }

    static method Copy(bytes: seq<bv8>) returns (a: array<bv8>)
      ensures fresh(a) && a[..] == bytes
    {
      a := new bv8[|bytes|](i requires 0 <= i < |bytes| => bytes[i]);
    }

    method BuildWith(id: CodecId, capabilities: seq<bv8>, hint: Option<CodecParameters>)
        returns (ok: bool, configuration: array<bv8>)
      requires Valid() && (id == AAC || id == SBC)
      ensures fresh(configuration)
      ensures var built := Build(id, Bits(capabilities), hint);
              ok == built.Some? && (ok ==> Bits(configuration[..]) == built.value)
    {
      var remote := Copy(capabilities);
      if id == AAC {
        ok, configuration := aac.BuildConfiguration(remote, hint);
      } else {
        ok, configuration := sbc.BuildConfiguration(remote, hint);
      }
    }

    method ParseWith(id: CodecId, configuration: array<bv8>) returns (r: Parsed<CodecParameters>)
      requires Valid() && (id == AAC || id == SBC)
      ensures r == Parse(id, Bits(configuration[..]))
    {
      if id == AAC {
        var p := aac.ParseConfiguration(configuration);
        r := match p case Accepted(a) => Accepted(a.codec) case Rejected(s) => Rejected(s);
      } else {
        var p := sbc.ParseConfiguration(configuration);
        r := match p case Accepted(a) => Accepted(a.codec) case Rejected(s) => Rejected(s);
      }
    }

    // One round of the loop in GetConfiguration.
    method Try(id: CodecId, remotes: seq<RemoteCapabilities>, hint: Hint) returns (r: Option<Configuration>)
      requires Valid() && (id == AAC || id == SBC)
      ensures r == Attempt(id, remotes, hint)
    {
      var rc := FindOffer(remotes, id);
      if rc == |remotes| { return None; }
      var ok, configuration := BuildWith(id, remotes[rc].capabilities, hint.codecParameters);
      if !ok { return None; }
      BuiltConfigurationParses(id, Bits(remotes[rc].capabilities), hint.codecParameters);
      var parsed := ParseWith(id, configuration);
      assert parsed.Accepted?;
      r := Some(Configuration(id, parsed.parameters, remotes[rc].seid, Bits(configuration[..])));
    }

    method GetConfiguration(remotes: seq<RemoteCapabilities>, hint: Hint) returns (r: Option<Configuration>)
      requires Valid() && hint.codecId in rankedCodecs
      ensures r == FirstSuccess(Tried(rankedCodecs, hint.codecId), remotes, hint)
    {
      var codecs := Rank(hint.codecId);
      TriedIsPart(rankedCodecs, hint.codecId);
      ghost var outcome := FirstSuccess(codecs, remotes, hint);
      r := None;
      var i := 0;
      assert codecs[0..] == codecs;
      while i < |codecs| && r.None?
        invariant i <= |codecs|
        invariant outcome == if r.Some? then r else FirstSuccess(codecs[i..], remotes, hint)
      {
        FirstSuccessStep(codecs, i, remotes, hint);
        assert codecs[i] in rankedCodecs;
        r := Try(codecs[i], remotes, hint);
        i := i + 1;
      }
    }
  }
}
