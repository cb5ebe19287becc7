/** The SDP printed for DESCRIBE and the extraction of H.264 parameters from an SDP
    (RFC 6184, section 8.2.1). */
module Sdp {
  import opened Wrappers
  import opened Text

  const U8_MAX: nat := 255

  datatype H264Params = H264Params(profileLevelId: string, spropParameterSets: string, packetizationMode: nat, payloadType: nat)

  function ModeText(p: H264Params): string { "packetization-mode=" + Dec(p.packetizationMode) }

  function ProfileText(p: H264Params): string { "profile-level-id=" + p.profileLevelId }

  function SpropText(p: H264Params): string { "sprop-parameter-sets=" + p.spropParameterSets }

  /** The sprop clause is left out when there are no parameter sets. */
  function FmtpValue(p: H264Params): string {
    ModeText(p) + ";" + (if p.spropParameterSets == [] then ProfileText(p) else ProfileText(p) + ";" + SpropText(p))
  }

  function FmtpLine(p: H264Params): string { "a=fmtp:" + Dec(p.payloadType) + " " + FmtpValue(p) }

  function SdpLines(name: string, p: H264Params): seq<string> {
    ["v=0", "o=- 0 0 IN IP4 0.0.0.0", "s=" + name, "c=IN IP4 0.0.0.0", "t=0 0",
     "m=video 0 RTP/AVP " + Dec(p.payloadType), "a=rtpmap:" + Dec(p.payloadType) + " H264/90000",
     FmtpLine(p), "a=control:streamid=0"]
  }

  function BuildSdp(name: string, p: H264Params): string { Lines(SdpLines(name, p)) }

  /** `trim_end_matches('\r')` */
  function TrimCr(s: string): string {
    if s != [] && s[|s| - 1] == '\r' then TrimCr(s[..|s| - 1]) else s
  }

  function StripPrefix(s: string, prefix: string): Option<string> {
    if prefix <= s then Some(s[|prefix|..]) else None
  }

  /** What the parameters of a line have said so far. */
  datatype Found = Found(profile: Option<string>, sprop: string, mode: nat)

  function SetParameter(key: string, value: string, f: Found): Found {
    if key == "profile-level-id" then f.(profile := Some(value))
    else if key == "sprop-parameter-sets" then f.(sprop := value)
    else if key == "packetization-mode" then
      (match ParseUint(value, U8_MAX) case Some(n) => f.(mode := n) case None => f)
    else f
  }

  function TakeParameter(kv: string, f: Found): Found {
    match SplitOnce(kv, '=')
    case None => f
    case Some((k, v)) => SetParameter(Trim(k), Trim(v), f)
  }

  function TakeParameters(kvs: seq<string>, f: Found): Found {
    if kvs == [] then f else TakeParameters(kvs[1..], TakeParameter(kvs[0], f))
  }

  const NOTHING: Found := Found(None, [], 1)

  /** The payload type and the parameter list of an fmtp line. */
  function FmtpParts(line: string): Option<(nat, string)> {
    match StripPrefix(line, "a=fmtp:")
    case None => None
    case Some(rest) =>
      match SplitOnce(rest, ' ')
      case None => None
      case Some((pt, kvs)) => match ParseUint(Trim(pt), U8_MAX) case None => None case Some(n) => Some((n, kvs))
  }

  function ParamsOfLine(line: string): Option<H264Params> {
    match FmtpParts(line)
    case None => None
    case Some((pt, kvs)) =>
      var f := TakeParameters(Split(kvs, ';'), NOTHING);
      if f.profile.None? then None else Some(H264Params(f.profile.value, f.sprop, f.mode, pt))
  }

  /** `lines()`: what follows the last line feed counts only if it is not empty. */
  function LinesOf(s: string): seq<string> {
    var parts := Split(s, '\n');
    if parts[|parts| - 1] == [] then parts[..|parts| - 1] else parts
  }

  function FirstParams(lines: seq<string>): Option<H264Params> {
    if lines == [] then None
    else match ParamsOfLine(TrimCr(lines[0]))
      case Some(p) => Some(p)
      case None => FirstParams(lines[1..])
  }

  function Extract(sdp: string): Option<H264Params> { FirstParams(LinesOf(sdp)) }

  /** The extraction as it runs. */
  method ExtractH264Params(sdp: string) returns (r: Option<H264Params>)
    ensures r == Extract(sdp)
  {
    var lines := LinesOf(sdp);
    var i := 0;
    while i < |lines|
      invariant 0 <= i <= |lines|
      invariant FirstParams(lines[i..]) == FirstParams(lines)
    {
      assert lines[i..][1..] == lines[i + 1..];
      var line := TrimCr(lines[i]);
      i := i + 1;
      var parts := FmtpParts(line);
      if parts.None? {
        continue;
      }
      var kvs := Split(parts.value.1, ';');
      var profile: Option<string>, sprop, mode: nat := None, [], 1;
      var k := 0;
      while k < |kvs|
        invariant 0 <= k <= |kvs|
        invariant TakeParameters(kvs[k..], Found(profile, sprop, mode)) == TakeParameters(kvs, NOTHING)
      {
        assert kvs[k..][1..] == kvs[k + 1..];
        var kv := SplitOnce(kvs[k], '=');
        k := k + 1;
        if kv.None? {
          continue;
        }
        var key, value := Trim(kv.value.0), Trim(kv.value.1);
        if key == "profile-level-id" {
          profile := Some(value);
        } else if key == "sprop-parameter-sets" {
          sprop := value;
        } else if key == "packetization-mode" {
          var n := ParseUint(value, U8_MAX);
          if n.Some? {
            mode := n.value;
          }
        }
      }
      assert kvs[|kvs|..] == [];
      if profile.Some? {
        return Some(H264Params(profile.value, sprop, mode, parts.value.0));
      }
    }
    r := None;
  }

  // ---- what can come out ----

  /** A value that one parameter of one line can carry. */
  predicate Clean(s: string) { Trimmed(s) && ';' !in s && '\n' !in s }

  predicate CleanSoFar(f: Found) { (f.profile.Some? ==> Clean(f.profile.value)) && Clean(f.sprop) }

  lemma {:induction false} ParametersClean(kvs: seq<string>, f: Found)
    requires Free(kvs, ';') && Free(kvs, '\n') && CleanSoFar(f)
    ensures CleanSoFar(TakeParameters(kvs, f))
  {
    if kvs == [] {
    } else {
      SplitOnceParts(kvs[0], '=');
      if SplitOnce(kvs[0], '=').Some? {
        var v := SplitOnce(kvs[0], '=').value.1;
        TrimTrims(v);
      }
      ParametersClean(kvs[1..], TakeParameter(kvs[0], f));
    }
  }

  lemma {:induction false} SplitKeepsFree(s: string, c: char, d: char)
    requires d !in s
    ensures Free(Split(s, c), d)
  {
    if s == [] {
    } else {
      SplitKeepsFree(s[1..], c, d);
    }
  }

  lemma {:induction false} TrimCrTrims(s: string)
    ensures TrimCr(s) <= s
    ensures s == [] || s[|s| - 1] != '\r' ==> TrimCr(s + ['\r']) == s
  {
    if s == [] || s[|s| - 1] != '\r' {
    } else {
      TrimCrTrims(s[..|s| - 1]);
    }
    assert (s + ['\r'])[..|s|] == s;
  }

  lemma LineClean(line: string)
    requires '\n' !in line
    ensures var r := ParamsOfLine(line); r.Some? ==> Clean(r.value.profileLevelId) && Clean(r.value.spropParameterSets)
  {
    if FmtpParts(line).Some? {
      var kvs := FmtpParts(line).value.1;
      var rest := StripPrefix(line, "a=fmtp:").value;
      SplitOnceParts(rest, ' ');
      var pt := SplitOnce(rest, ' ').value.0;
      assert kvs == rest[|pt| + 1..] == line[|"a=fmtp:"| + |pt| + 1..];
      SplitPartsFree(kvs, ';');
      SplitKeepsFree(kvs, ';', '\n');
      ParametersClean(Split(kvs, ';'), NOTHING);
    }
  }

  lemma {:induction false} FirstClean(lines: seq<string>)
    requires Free(lines, '\n')
    ensures var r := FirstParams(lines); r.Some? ==> Clean(r.value.profileLevelId) && Clean(r.value.spropParameterSets)
  {
    if lines == [] {
    } else {
      TrimCrTrims(lines[0]);
      LineClean(TrimCr(lines[0]));
      FirstClean(lines[1..]);
    }
  }

  lemma ExtractedClean(sdp: string)
    ensures var r := Extract(sdp); r.Some? ==> Clean(r.value.profileLevelId) && Clean(r.value.spropParameterSets)
  {
    SplitPartsFree(sdp, '\n');
    FirstClean(LinesOf(sdp));
  }

  // ---- the round trip ----

  lemma OneParameter(text: string, key: string, value: string, f: Found)
    requires key != [] && Visible(key[0]) && Visible(key[|key| - 1]) && '=' !in key
    requires text == key + ['='] + value && Trimmed(value)
    ensures TakeParameter(text, f) == SetParameter(key, value, f)
  {
    SplitOnceAt(key, '=', value);
    VisibleEnds(key);
    TrimOfTrimmed(key);
    TrimOfTrimmed(value);
  }

  lemma SetsMode(mode: nat, f: Found)
    requires mode <= U8_MAX
    ensures SetParameter("packetization-mode", Dec(mode), f) == f.(mode := mode)
  {
    DecParses(mode, U8_MAX);
  }

  lemma TakesMode(p: H264Params, f: Found)
    requires p.packetizationMode <= U8_MAX
    ensures TakeParameter(ModeText(p), f) == f.(mode := p.packetizationMode)
  {
    DecTrimmed(p.packetizationMode);
    OneParameter(ModeText(p), "packetization-mode", Dec(p.packetizationMode), f);
    SetsMode(p.packetizationMode, f);
  }

  lemma TakesProfile(p: H264Params, f: Found)
    requires Trimmed(p.profileLevelId)
    ensures TakeParameter(ProfileText(p), f) == f.(profile := Some(p.profileLevelId))
  {
    OneParameter(ProfileText(p), "profile-level-id", p.profileLevelId, f);
  }

  lemma TakesSprop(p: H264Params, f: Found)
    requires Trimmed(p.spropParameterSets)
    ensures TakeParameter(SpropText(p), f) == f.(sprop := p.spropParameterSets)
  {
    OneParameter(SpropText(p), "sprop-parameter-sets", p.spropParameterSets, f);
  }

  lemma DecFree(n: nat)
    ensures ' ' !in Dec(n) && ';' !in Dec(n) && '\n' !in Dec(n) && '\r' !in Dec(n)
  {
    DecDigits(n);
  }

  /** The parameters of the printed line, one by one. */
  function Parameters(p: H264Params): seq<string> {
    if p.spropParameterSets == [] then [ModeText(p), ProfileText(p)] else [ModeText(p), ProfileText(p), SpropText(p)]
  }

  lemma JoinTwo(a: string, b: string)
    ensures Join([a, b], ';') == a + ";" + b
  {
    assert [a, b][1..] == [b];
  }

  lemma JoinThree(a: string, b: string, d: string)
    ensures Join([a, b, d], ';') == a + ";" + (b + ";" + d)
  {
    JoinTwo(b, d);
    assert [a, b, d][1..] == [b, d];
  }

  lemma FmtpValueSplits(p: H264Params)
    requires Clean(p.profileLevelId) && Clean(p.spropParameterSets)
    ensures Split(FmtpValue(p), ';') == Parameters(p)
  {
    DecFree(p.packetizationMode);
    var parts := Parameters(p);
    if p.spropParameterSets == [] {
      JoinTwo(parts[0], parts[1]);
    } else {
      JoinThree(parts[0], parts[1], parts[2]);
    }
    assert Join(parts, ';') == FmtpValue(p);
    SplitJoin(parts, ';');
  }

  lemma FmtpValueParses(p: H264Params)
    requires Clean(p.profileLevelId) && Clean(p.spropParameterSets) && p.packetizationMode <= U8_MAX
    ensures TakeParameters(Split(FmtpValue(p), ';'), NOTHING)
            == Found(Some(p.profileLevelId), p.spropParameterSets, p.packetizationMode)
  {
    FmtpValueSplits(p);
    var f1 := NOTHING.(mode := p.packetizationMode);
    var f2 := f1.(profile := Some(p.profileLevelId));
    TakesMode(p, NOTHING);
    TakesProfile(p, f1);
    TakesSprop(p, f2);
    var parts := Parameters(p);
    var rest := parts[1..][1..];
    assert TakeParameters(parts, NOTHING) == TakeParameters(rest, f2);
    if p.spropParameterSets == [] {
      assert rest == [];
    } else {
      assert rest[0] == parts[2] && rest[1..] == [];
      assert TakeParameters(rest, f2) == TakeParameters([], f2.(sprop := p.spropParameterSets));
    }
  }

  lemma FmtpLineParses(p: H264Params)
    requires Clean(p.profileLevelId) && Clean(p.spropParameterSets)
    requires p.packetizationMode <= U8_MAX && p.payloadType <= U8_MAX
    ensures ParamsOfLine(FmtpLine(p)) == Some(p)
  {
    var pt := Dec(p.payloadType);
    DecFree(p.payloadType);
    DecParses(p.payloadType, U8_MAX);
    DecTrimmed(p.payloadType);
    TrimOfTrimmed(pt);
    assert FmtpLine(p) == "a=fmtp:" + (pt + [' '] + FmtpValue(p));
    assert StripPrefix(FmtpLine(p), "a=fmtp:") == Some(pt + [' '] + FmtpValue(p));
    SplitOnceAt(pt, ' ', FmtpValue(p));
    FmtpValueParses(p);
  }

  /** Splitting printed lines again: each comes back with its carriage return. */
  lemma {:induction false} LinesComeBack(ls: seq<string>)
    requires Free(ls, '\n')
    ensures var parts := Split(Lines(ls), '\n');
      && |parts| == |ls| + 1 && parts[|ls|] == []
      && forall k :: 0 <= k < |ls| ==> parts[k] == ls[k] + ['\r']
  {
    if ls == [] {
    } else {
      LinesComeBack(ls[1..]);
      assert Lines(ls) == (ls[0] + ['\r']) + ['\n'] + Lines(ls[1..]);
      SplitAfter(ls[0] + ['\r'], '\n', Lines(ls[1..]));
    }
  }

  /** A printed line that is not the fmtp line, even with its carriage return trimmed. */
  predicate Other(line: string) { !("a=fmtp:" <= line) }

  lemma {:induction false} TrimCrPrefix(s: string, prefix: string)
    ensures prefix <= TrimCr(s) ==> prefix <= s
  {
    TrimCrTrims(s);
  }

  lemma FmtpStart(line: string)
    requires !Other(line)
    ensures |line| >= 7 && line[0] == 'a' && line[2] == 'f'
  {
    assert line[..7] == "a=fmtp:" && line[..7][0] == line[0] && line[..7][2] == line[2];
  }

  lemma OthersFind(name: string, p: H264Params)
    ensures forall k :: 0 <= k < 7 ==> Other(SdpLines(name, p)[k] + ['\r'])
  {
    var ls := SdpLines(name, p);
    forall k | 0 <= k < 7
      ensures Other(ls[k] + ['\r'])
    {
      if !Other(ls[k] + ['\r']) { FmtpStart(ls[k] + ['\r']); }
    }
  }

  /** The first seven lines are passed over. */
  lemma {:induction false} PassOver(lines: seq<string>, n: nat)
    requires n <= |lines| && forall k :: 0 <= k < n ==> Other(lines[k])
    ensures FirstParams(lines) == FirstParams(lines[n..])
  {
    if n > 0 {
      TrimCrPrefix(lines[0], "a=fmtp:");
      PassOver(lines[1..], n - 1);
      assert lines[1..][n - 1..] == lines[n..];
    } else {
      assert lines[0..] == lines;
    }
  }

  lemma FmtpValueFree(p: H264Params)
    requires Clean(p.profileLevelId) && Clean(p.spropParameterSets)
    ensures '\n' !in FmtpValue(p)
  {
    DecFree(p.packetizationMode);
    assert '\n' !in ModeText(p) && '\n' !in ProfileText(p) && '\n' !in SpropText(p);
  }

  lemma FmtpFree(p: H264Params)
    requires Clean(p.profileLevelId) && Clean(p.spropParameterSets)
    ensures '\n' !in FmtpLine(p)
  {
    DecFree(p.payloadType);
    FmtpValueFree(p);
  }

  lemma FrontFree(name: string, p: H264Params)
    requires '\n' !in name
    ensures forall k :: 0 <= k < 5 ==> '\n' !in SdpLines(name, p)[k]
  {
  }

  lemma BackFree(name: string, p: H264Params)
    requires Clean(p.profileLevelId) && Clean(p.spropParameterSets)
    ensures forall k :: 5 <= k < 9 ==> '\n' !in SdpLines(name, p)[k]
  {
    DecFree(p.payloadType);
    FmtpFree(p);
  }

  lemma SdpLinesFree(name: string, p: H264Params)
    requires '\n' !in name && Clean(p.profileLevelId) && Clean(p.spropParameterSets)
    ensures Free(SdpLines(name, p), '\n')
  {
    FrontFree(name, p);
    BackFree(name, p);
  }

  lemma FmtpLineEnds(p: H264Params)
    requires Clean(p.profileLevelId) && Clean(p.spropParameterSets)
    ensures FmtpLine(p) != [] && FmtpLine(p)[|FmtpLine(p)| - 1] != '\r'
  {
    var l := FmtpLine(p);
    if p.spropParameterSets != [] {
      TrimmedLast(p.spropParameterSets);
      assert l[|l| - 1] == p.spropParameterSets[|p.spropParameterSets| - 1];
    } else if p.profileLevelId != [] {
      TrimmedLast(p.profileLevelId);
      assert l[|l| - 1] == p.profileLevelId[|p.profileLevelId| - 1];
    } else {
      assert l[|l| - 1] == "profile-level-id="[|"profile-level-id="| - 1];
    }
  }

  lemma PrintedLines(name: string, p: H264Params)
    requires '\n' !in name && Clean(p.profileLevelId) && Clean(p.spropParameterSets)
    ensures var lines := LinesOf(BuildSdp(name, p));
      |lines| == 9 && forall k :: 0 <= k < 9 ==> lines[k] == SdpLines(name, p)[k] + ['\r']
  {
    SdpLinesFree(name, p);
    LinesComeBack(SdpLines(name, p));
  }

  lemma CleanComesBack(name: string, p: H264Params)
    requires '\n' !in name && p.packetizationMode <= U8_MAX && p.payloadType <= U8_MAX
    requires Clean(p.profileLevelId) && Clean(p.spropParameterSets)
    ensures Extract(BuildSdp(name, p)) == Some(p)
  {
    var lines := LinesOf(BuildSdp(name, p));
    PrintedLines(name, p);
    OthersFind(name, p);
    PassOver(lines, 7);
    FmtpLineEnds(p);
    TrimCrTrims(FmtpLine(p));
    FmtpLineParses(p);
    assert lines[7..][0] == FmtpLine(p) + ['\r'];
  }

  /** Extracting from a printed SDP gives the parameters back exactly when both strings are
      trimmed and without ';' and line feeds. */
  lemma RoundTripIffClean(name: string, p: H264Params)
    requires '\n' !in name && p.packetizationMode <= U8_MAX && p.payloadType <= U8_MAX
    ensures Extract(BuildSdp(name, p)) == Some(p) <==> Clean(p.profileLevelId) && Clean(p.spropParameterSets)
  {
    ExtractedClean(BuildSdp(name, p));
    if Clean(p.profileLevelId) && Clean(p.spropParameterSets) {
      CleanComesBack(name, p);
    }
  }
}
