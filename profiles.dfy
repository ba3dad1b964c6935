/**
  backend/profiles.py: the named `scrcpy` settings. A profile's arguments become an ordered
  list of command-line flags, and `PROFILES` is the fixed, ordered registry with "Default" as
  the fallback for unknown names.
 */
module Profiles {
  import opened Wrappers
  import opened Strings
  import opened Numbers

  /**
    The `args` dictionary of a profile. A number that is absent is `None`, read as 0 by
    `.get(key, 0)`. A `buffer` that is absent or `None` is `None`. `codec` is `None` when the
    key is absent.
   */
  datatype ProfileArgs = ProfileArgs(
    maxSize: Option<int>,
    bitRate: Option<int>,
    maxFps: Option<int>,
    buffer: Option<int>,
    codec: Option<string>)

  /** `ScrcpyProfile(name, args)`. */
  datatype ScrcpyProfile = ScrcpyProfile(name: string, args: ProfileArgs)

  const MaxSizeKey := "--max-size"
  const BitRateKey := "--video-bit-rate"
  const MaxFpsKey := "--max-fps"
  const VideoBufferKey := "--video-buffer"
  const AudioBufferKey := "--audio-buffer"
  const CodecKey := "--video-codec"

  /** `f"{key}={value}"`. */
  function Flag(key: string, value: string): string {
    key + "=" + value
  }

  /** The flag for a number that is given only when `args.get(key, 0) > 0`. */
  function NumberFlag(key: string, v: Option<int>): seq<string> {
    if v.GetOr(0) > 0 then [Flag(key, IntToString(v.value))] else []
  }

  /** The buffer flags: both buffers off for 0, the video buffer alone otherwise, nothing without one. */
  function BufferFlags(buffer: Option<int>): seq<string> {
    match buffer
    case None => []
    case Some(ms) =>
      if ms == 0 then [Flag(VideoBufferKey, "0"), Flag(AudioBufferKey, "0")]
      else [Flag(VideoBufferKey, IntToString(ms))]
  }

  function CodecFlags(codec: Option<string>): seq<string> {
    match codec
    case None => []
    case Some(c) => [Flag(CodecKey, c)]
  }

  /** The flags of `to_flags`: max size, bit rate, frame rate, buffers, codec, in that order. */
  function FlagsOf(a: ProfileArgs): seq<string> {
    NumberFlag(MaxSizeKey, a.maxSize) + NumberFlag(BitRateKey, a.bitRate) + NumberFlag(MaxFpsKey, a.maxFps)
    + BufferFlags(a.buffer) + CodecFlags(a.codec)
  }

  /** `ScrcpyProfile.to_flags()`: one conditional append after another; the profile is unchanged. */
  method ToFlags(profile: ScrcpyProfile) returns (flags: seq<string>)
    ensures flags == FlagsOf(profile.args)
  {
    var a := profile.args;
    flags := [];
    if a.maxSize.GetOr(0) > 0 {
      flags := flags + [Flag(MaxSizeKey, IntToString(a.maxSize.value))];
    }
    assert flags == NumberFlag(MaxSizeKey, a.maxSize);
    ghost var p2 := flags;
    if a.bitRate.GetOr(0) > 0 {
      flags := flags + [Flag(BitRateKey, IntToString(a.bitRate.value))];
    }
    assert flags == p2 + NumberFlag(BitRateKey, a.bitRate);
    ghost var p3 := flags;
    if a.maxFps.GetOr(0) > 0 {
      flags := flags + [Flag(MaxFpsKey, IntToString(a.maxFps.value))];
    }
    assert flags == p3 + NumberFlag(MaxFpsKey, a.maxFps);
    ghost var p4 := flags;
    if a.buffer.Some? {
      if a.buffer.value == 0 {
        flags := flags + [Flag(VideoBufferKey, "0")];
        flags := flags + [Flag(AudioBufferKey, "0")];
      } else {
        flags := flags + [Flag(VideoBufferKey, IntToString(a.buffer.value))];
      }
    }
    assert flags == p4 + BufferFlags(a.buffer);
    ghost var p5 := flags;
    if a.codec.Some? {
      flags := flags + [Flag(CodecKey, a.codec.value)];
    }
    assert flags == p5 + CodecFlags(a.codec);
  }

  // ----- Reading the flags back, as `scrcpy` would -----

  /** The value of the first flag written `key=value`. */
  function Lookup(flags: seq<string>, key: string): Option<string>
  {
    if flags == [] then None
    else if StartsWith(flags[0], key + "=") then Some(flags[0][|key| + 1..])
    else Lookup(flags[1..], key)
  }

  function ReadNumber(flags: seq<string>, key: string): Option<int>
  {
    match Lookup(flags, key)
    case None => None
    case Some(t) => ParseInt(t)
  }

  /** The arguments a reader of the flags recovers. */
  function ReadArgs(flags: seq<string>): ProfileArgs
  {
    ProfileArgs(ReadNumber(flags, MaxSizeKey), ReadNumber(flags, BitRateKey), ReadNumber(flags, MaxFpsKey),
                ReadNumber(flags, VideoBufferKey), Lookup(flags, CodecKey))
  }

  /** A number that `to_flags` passes on: a positive one. */
  function Positive(v: Option<int>): Option<int> {
    if v.GetOr(0) > 0 then v else None
  }

  /** What of the arguments reaches the flags: numbers only when positive, buffer and codec as given. */
  function Effective(a: ProfileArgs): ProfileArgs {
    ProfileArgs(Positive(a.maxSize), Positive(a.bitRate), Positive(a.maxFps), a.buffer, a.codec)
  }

  function OrElse(x: Option<string>, y: Option<string>): Option<string> {
    if x.Some? then x else y
  }

  lemma {:induction false} LookupConcat(x: seq<string>, y: seq<string>, key: string)
    ensures Lookup(x + y, key) == OrElse(Lookup(x, key), Lookup(y, key))
    decreases |x|
  {
    if x != [] {
      assert (x + y)[1..] == x[1..] + y;
      LookupConcat(x[1..], y, key);
    } else {
      assert x + y == y;
    }
  }

  /** A flag `k1=v` is found under `k2` exactly when the keys are equal (neither holds a '='). */
  lemma LookupFlag(k1: string, v: string, k2: string)
    requires Lacks(k1, '=') && Lacks(k2, '=')
    ensures Lookup([Flag(k1, v)], k2) == if k1 == k2 then Some(v) else None
  {
    var f := Flag(k1, v);
    assert f[..|k1|] == k1 && f[|k1|] == '=';
    AfterEquals(k1, v);
    if |k2| < |k1| {
      assert f[|k2|] == k1[|k2|] && (k2 + "=")[|k2|] == '=';
    } else if |k2| > |k1| {
      assert (k2 + "=")[|k1|] == k2[|k1|];
    } else {
      assert (k2 + "=")[..|k2|] == k2;
    }
  }

  lemma AfterEquals(k: string, v: string)
    ensures StartsWith(Flag(k, v), k + "=") && Flag(k, v)[|k| + 1..] == v
  {
    assert Flag(k, v) == (k + "=") + v;
  }

  lemma KeysFacts()
    ensures Lacks(MaxSizeKey, '=') && Lacks(BitRateKey, '=') && Lacks(MaxFpsKey, '=')
    ensures Lacks(VideoBufferKey, '=') && Lacks(AudioBufferKey, '=') && Lacks(CodecKey, '=')
    ensures MaxSizeKey != BitRateKey && MaxSizeKey != MaxFpsKey && MaxSizeKey != VideoBufferKey
    ensures MaxSizeKey != AudioBufferKey && MaxSizeKey != CodecKey
    ensures BitRateKey != MaxFpsKey && BitRateKey != VideoBufferKey && BitRateKey != AudioBufferKey
    ensures BitRateKey != CodecKey
    ensures MaxFpsKey != VideoBufferKey && MaxFpsKey != AudioBufferKey && MaxFpsKey != CodecKey
    ensures VideoBufferKey != AudioBufferKey && VideoBufferKey != CodecKey && AudioBufferKey != CodecKey
  {
    assert MaxSizeKey[2] != BitRateKey[2];
    assert MaxSizeKey[6] != MaxFpsKey[6];
    assert VideoBufferKey[8] != CodecKey[8];
    assert BitRateKey[9] != VideoBufferKey[9];
    assert BitRateKey[8] != CodecKey[8];
  }

  lemma LookupNumberFlag(k1: string, v: Option<int>, k2: string)
    requires Lacks(k1, '=') && Lacks(k2, '=')
    ensures Lookup(NumberFlag(k1, v), k2)
            == if k1 == k2 && v.GetOr(0) > 0 then Some(IntToString(v.value)) else None
  {
    if v.GetOr(0) > 0 {
      LookupFlag(k1, IntToString(v.value), k2);
    }
  }

  lemma LookupBufferFlags(buffer: Option<int>, k: string)
    requires Lacks(k, '=')
    ensures Lookup(BufferFlags(buffer), k)
            == if buffer.None? then None
               else if k == VideoBufferKey then Some(IntToString(buffer.value))
               else if k == AudioBufferKey && buffer.value == 0 then Some("0")
               else None
  {
    KeysFacts();
    if buffer.Some? {
      var ms := buffer.value;
      if ms == 0 {
        assert BufferFlags(buffer) == [Flag(VideoBufferKey, "0")] + [Flag(AudioBufferKey, "0")];
        LookupConcat([Flag(VideoBufferKey, "0")], [Flag(AudioBufferKey, "0")], k);
        LookupFlag(VideoBufferKey, "0", k);
        LookupFlag(AudioBufferKey, "0", k);
        assert IntToString(0) == "0";
      } else {
        LookupFlag(VideoBufferKey, IntToString(ms), k);
      }
    }
  }

  lemma LookupCodecFlags(codec: Option<string>, k: string)
    requires Lacks(k, '=')
    ensures Lookup(CodecFlags(codec), k) == if k == CodecKey then codec else None
  {
    KeysFacts();
    if codec.Some? {
      LookupFlag(CodecKey, codec.value, k);
    }
  }

  /** Looking a key up in the flags is looking it up in each group of flags, in order. */
  lemma LookupFlagsOf(a: ProfileArgs, k: string)
    ensures var p1, p2, p3 := NumberFlag(MaxSizeKey, a.maxSize), NumberFlag(BitRateKey, a.bitRate), NumberFlag(MaxFpsKey, a.maxFps);
            var p4, p5 := BufferFlags(a.buffer), CodecFlags(a.codec);
            Lookup(FlagsOf(a), k)
            == OrElse(OrElse(OrElse(OrElse(Lookup(p1, k), Lookup(p2, k)), Lookup(p3, k)), Lookup(p4, k)), Lookup(p5, k))
  {
    var p1, p2, p3 := NumberFlag(MaxSizeKey, a.maxSize), NumberFlag(BitRateKey, a.bitRate), NumberFlag(MaxFpsKey, a.maxFps);
    var p4, p5 := BufferFlags(a.buffer), CodecFlags(a.codec);
    LookupConcat(p1 + p2 + p3 + p4, p5, k);
    LookupConcat(p1 + p2 + p3, p4, k);
    LookupConcat(p1 + p2, p3, k);
    LookupConcat(p1, p2, k);
  }

  /** What each group of flags holds under the key `k`. */
  lemma GroupsAt(a: ProfileArgs, k: string)
    requires Lacks(k, '=')
    ensures Lookup(NumberFlag(MaxSizeKey, a.maxSize), k)
            == if k == MaxSizeKey && a.maxSize.GetOr(0) > 0 then Some(IntToString(a.maxSize.value)) else None
    ensures Lookup(NumberFlag(BitRateKey, a.bitRate), k)
            == if k == BitRateKey && a.bitRate.GetOr(0) > 0 then Some(IntToString(a.bitRate.value)) else None
    ensures Lookup(NumberFlag(MaxFpsKey, a.maxFps), k)
            == if k == MaxFpsKey && a.maxFps.GetOr(0) > 0 then Some(IntToString(a.maxFps.value)) else None
    ensures Lookup(BufferFlags(a.buffer), k)
            == if a.buffer.None? then None
               else if k == VideoBufferKey then Some(IntToString(a.buffer.value))
               else if k == AudioBufferKey && a.buffer.value == 0 then Some("0")
               else None
    ensures Lookup(CodecFlags(a.codec), k) == if k == CodecKey then a.codec else None
  {
    KeysFacts();
    LookupNumberFlag(MaxSizeKey, a.maxSize, k);
    LookupNumberFlag(BitRateKey, a.bitRate, k);
    LookupNumberFlag(MaxFpsKey, a.maxFps, k);
    LookupBufferFlags(a.buffer, k);
    LookupCodecFlags(a.codec, k);
  }

  lemma ReadMaxSize(a: ProfileArgs)
    ensures ReadNumber(FlagsOf(a), MaxSizeKey) == Positive(a.maxSize)
  {
    KeysFacts();
    LookupFlagsOf(a, MaxSizeKey);
    GroupsAt(a, MaxSizeKey);
    ReadNumberOf(FlagsOf(a), MaxSizeKey, a.maxSize);
  }

  lemma ReadBitRate(a: ProfileArgs)
    ensures ReadNumber(FlagsOf(a), BitRateKey) == Positive(a.bitRate)
  {
    KeysFacts();
    LookupFlagsOf(a, BitRateKey);
    GroupsAt(a, BitRateKey);
    ReadNumberOf(FlagsOf(a), BitRateKey, a.bitRate);
  }

  lemma ReadMaxFps(a: ProfileArgs)
    ensures ReadNumber(FlagsOf(a), MaxFpsKey) == Positive(a.maxFps)
  {
    KeysFacts();
    LookupFlagsOf(a, MaxFpsKey);
    GroupsAt(a, MaxFpsKey);
    ReadNumberOf(FlagsOf(a), MaxFpsKey, a.maxFps);
  }

  lemma ReadBuffer(a: ProfileArgs)
    ensures ReadNumber(FlagsOf(a), VideoBufferKey) == a.buffer
  {
    KeysFacts();
    LookupFlagsOf(a, VideoBufferKey);
    GroupsAt(a, VideoBufferKey);
    if a.buffer.Some? { ParseIntOfIntToString(a.buffer.value); }
  }

  lemma ReadCodec(a: ProfileArgs)
    ensures Lookup(FlagsOf(a), CodecKey) == a.codec
  {
    KeysFacts();
    LookupFlagsOf(a, CodecKey);
    GroupsAt(a, CodecKey);
  }

  /**
    The flags carry exactly the effective arguments: a reader recovers every positive number,
    the buffer and the codec, and finds no flag for a number that is absent or not positive.
   */
  lemma FlagsReadBack(a: ProfileArgs)
    ensures ReadArgs(FlagsOf(a)) == Effective(a)
  {
    ReadMaxSize(a);
    ReadBitRate(a);
    ReadMaxFps(a);
    ReadBuffer(a);
    ReadCodec(a);
  }

  lemma ReadNumberOf(flags: seq<string>, k: string, v: Option<int>)
    requires Lookup(flags, k) == if v.GetOr(0) > 0 then Some(IntToString(v.value)) else None
    ensures ReadNumber(flags, k) == Positive(v)
  {
    if v.GetOr(0) > 0 { ParseIntOfIntToString(v.value); }
  }

  /** `--audio-buffer=0` is given exactly when the buffer is 0; no other audio buffer is ever given. */
  lemma AudioBufferOnlyForZero(a: ProfileArgs)
    ensures Lookup(FlagsOf(a), AudioBufferKey) == if a.buffer == Some(0) then Some("0") else None
  {
    KeysFacts();
    LookupFlagsOf(a, AudioBufferKey);
    GroupsAt(a, AudioBufferKey);
  }

  // ----- Order of the flags -----

  /** The key of a flag: the text before its first '='. */
  function KeyOf(flag: string): string {
    Split(flag, "=")[0]
  }

  /** Where a key comes in `to_flags`: max size, bit rate, frame rate, video buffer, audio buffer, codec. */
  function Rank(key: string): nat {
    if key == MaxSizeKey then 0
    else if key == BitRateKey then 1
    else if key == MaxFpsKey then 2
    else if key == VideoBufferKey then 3
    else if key == AudioBufferKey then 4
    else if key == CodecKey then 5
    else 6
  }

  /** The keys come in strictly increasing rank, so each occurs at most once. */
  predicate InOrder(flags: seq<string>) {
    forall i, j :: 0 <= i < j < |flags| ==> Rank(KeyOf(flags[i])) < Rank(KeyOf(flags[j]))
  }

  predicate RanksWithin(flags: seq<string>, lo: nat, hi: nat) {
    forall i :: 0 <= i < |flags| ==> lo <= Rank(KeyOf(flags[i])) < hi
  }

  lemma KeyOfFlag(k: string, v: string)
    requires Lacks(k, '=')
    ensures KeyOf(Flag(k, v)) == k
  {
    SplitAfterLacking(k, "=", v);
  }

  lemma OrderConcat(x: seq<string>, y: seq<string>, lo: nat, m: nat, hi: nat)
    requires lo <= m <= hi
    requires InOrder(x) && InOrder(y) && RanksWithin(x, lo, m) && RanksWithin(y, m, hi)
    ensures InOrder(x + y) && RanksWithin(x + y, lo, hi)
  {
    assert forall i :: 0 <= i < |x| ==> (x + y)[i] == x[i];
    assert forall i :: |x| <= i < |x + y| ==> (x + y)[i] == y[i - |x|];
  }

  lemma NumberGroupOrder(k: string, v: Option<int>)
    requires Lacks(k, '=')
    ensures InOrder(NumberFlag(k, v)) && RanksWithin(NumberFlag(k, v), Rank(k), Rank(k) + 1)
  {
    if v.GetOr(0) > 0 { KeyOfFlag(k, IntToString(v.value)); }
  }

  lemma BufferGroupOrder(buffer: Option<int>)
    ensures InOrder(BufferFlags(buffer)) && RanksWithin(BufferFlags(buffer), 3, 5)
  {
    KeysFacts();
    if buffer.Some? {
      if buffer.value == 0 {
        KeyOfFlag(VideoBufferKey, "0");
        KeyOfFlag(AudioBufferKey, "0");
      } else {
        KeyOfFlag(VideoBufferKey, IntToString(buffer.value));
      }
    }
  }

  lemma CodecGroupOrder(codec: Option<string>)
    ensures InOrder(CodecFlags(codec)) && RanksWithin(CodecFlags(codec), 5, 6)
  {
    KeysFacts();
    if codec.Some? { KeyOfFlag(CodecKey, codec.value); }
  }

  lemma RanksOfKeys()
    ensures Rank(MaxSizeKey) == 0 && Rank(BitRateKey) == 1 && Rank(MaxFpsKey) == 2
  {
    KeysFacts();
  }

  /**
    The flags always come in the order max size, bit rate, frame rate, video buffer, audio
    buffer, codec, and no key is given twice.
   */
  lemma FlagsInOrder(a: ProfileArgs)
    ensures InOrder(FlagsOf(a)) && RanksWithin(FlagsOf(a), 0, 6)
  {
    KeysFacts();
    RanksOfKeys();
    var p1, p2, p3 := NumberFlag(MaxSizeKey, a.maxSize), NumberFlag(BitRateKey, a.bitRate), NumberFlag(MaxFpsKey, a.maxFps);
    var p4, p5 := BufferFlags(a.buffer), CodecFlags(a.codec);
    NumberGroupOrder(MaxSizeKey, a.maxSize);
    NumberGroupOrder(BitRateKey, a.bitRate);
    NumberGroupOrder(MaxFpsKey, a.maxFps);
    BufferGroupOrder(a.buffer);
    CodecGroupOrder(a.codec);
    OrderConcat(p1, p2, 0, 1, 2);
    OrderConcat(p1 + p2, p3, 0, 2, 3);
    OrderConcat(p1 + p2 + p3, p4, 0, 3, 5);
    OrderConcat(p1 + p2 + p3 + p4, p5, 0, 5, 6);
  }

  // ----- The registry -----

  const DefaultProfile := ScrcpyProfile("Default", ProfileArgs(None, Some(8000000), None, None, None))
  const LowLatency := ScrcpyProfile("Low Latency", ProfileArgs(Some(1024), Some(4000000), Some(60), Some(0), Some("h264")))
  const HighQuality := ScrcpyProfile("High Quality", ProfileArgs(None, Some(16000000), Some(60), Some(50), Some("h265")))
  const BatterySaver := ScrcpyProfile("Battery Saver", ProfileArgs(Some(800), Some(2000000), Some(30), Some(0), Some("h264")))
  const StreamingMode := ScrcpyProfile("Streaming Mode", ProfileArgs(Some(1920), Some(12000000), Some(60), Some(100), Some("h264")))

  /** `PROFILES`: its keys and profiles, in the order the dictionary was written. */
  const Registry: seq<(string, ScrcpyProfile)> := [
    ("Default", DefaultProfile),
    ("Low Latency", LowLatency),
    ("High Quality", HighQuality),
    ("Battery Saver", BatterySaver),
    ("Streaming Mode", StreamingMode)
  ]

  /** `get_profile_names()`: the keys of `PROFILES`, in definition order; no key occurs twice. */
  function GetProfileNames(): (names: seq<string>)
    ensures |names| == |Registry| && forall i :: 0 <= i < |names| ==> names[i] == Registry[i].0
    ensures names == ["Default", "Low Latency", "High Quality", "Battery Saver", "Streaming Mode"]
    ensures forall i, j :: 0 <= i < j < |names| ==> names[i] != names[j]
  {
    seq(|Registry|, i requires 0 <= i < |Registry| => Registry[i].0)
  }

  /** The profile under a key of the registry, if there is one. */
  function FindProfile(entries: seq<(string, ScrcpyProfile)>, name: string): (r: Option<ScrcpyProfile>)
    ensures r.None? <==> forall i :: 0 <= i < |entries| ==> entries[i].0 != name
    ensures r.Some? ==> exists i :: 0 <= i < |entries| && entries[i] == (name, r.value)
  {
    if entries == [] then None
    else if entries[0].0 == name then Some(entries[0].1)
    else FindProfile(entries[1..], name)
  }

  /** `PROFILES.get(name, PROFILES["Default"])`. */
  function GetProfile(name: string): (p: ScrcpyProfile)
    ensures name !in GetProfileNames() ==> p == DefaultProfile
    ensures forall i :: 0 <= i < |Registry| && Registry[i].0 == name ==> p == Registry[i].1
  {
    var names := GetProfileNames();
    assert forall i :: 0 <= i < |Registry| ==> names[i] == Registry[i].0;
    FindProfile(Registry, name).GetOr(DefaultProfile)
  }

  /** `get_profile_flags(name)`: the flags of the named profile, or of "Default" for an unknown name. */
  method GetProfileFlags(name: string) returns (flags: seq<string>)
    ensures flags == FlagsOf(GetProfile(name).args)
  {
    var profile := GetProfile(name);
    flags := ToFlags(profile);
  }

  lemma DigitsOfDefault()
    ensures IntToString(8000000) == "8000000"
  {
    assert NatToString(80) == "80";
    assert NatToString(800) == "800";
    assert NatToString(8000) == "8000";
    assert NatToString(80000) == "80000";
    assert NatToString(800000) == "800000";
  }

  /** An unknown name gets the "Default" flags: exactly `--video-bit-rate=8000000`. */
  lemma UnknownProfileFlags(name: string)
    requires name !in GetProfileNames()
    ensures FlagsOf(GetProfile(name).args) == ["--video-bit-rate=8000000"]
  {
    DigitsOfDefault();
    assert FlagsOf(DefaultProfile.args) == [Flag(BitRateKey, "8000000")];
    assert Flag(BitRateKey, "8000000") == "--video-bit-rate=8000000";
  }

  lemma DigitsOfLowLatency()
    ensures IntToString(1024) == "1024" && IntToString(60) == "60"
    ensures IntToString(4000000) == "4000000"
  {
    assert NatToString(102) == "102";
    assert NatToString(40) == "40";
    assert NatToString(400) == "400";
    assert NatToString(4000) == "4000";
    assert NatToString(40000) == "40000";
    assert NatToString(400000) == "400000";
  }

  /** "Low Latency" gets exactly its six flags, both buffers off. */
  lemma LowLatencyFlags()
    ensures FlagsOf(GetProfile("Low Latency").args)
            == ["--max-size=1024", "--video-bit-rate=4000000", "--max-fps=60",
                "--video-buffer=0", "--audio-buffer=0", "--video-codec=h264"]
  {
    LowLatencyRegistered();
    LowLatencyFlagParts();
    LowLatencyFlagWords();
  }

  lemma LowLatencyRegistered()
    ensures GetProfile("Low Latency") == LowLatency
  {
    assert Registry[1].0 == "Low Latency";
  }

  lemma LowLatencyFlagParts()
    ensures FlagsOf(LowLatency.args)
            == [Flag(MaxSizeKey, "1024"), Flag(BitRateKey, "4000000"), Flag(MaxFpsKey, "60"),
                Flag(VideoBufferKey, "0"), Flag(AudioBufferKey, "0"), Flag(CodecKey, "h264")]
  {
    DigitsOfLowLatency();
  }

  lemma LowLatencyFlagWords()
    ensures Flag(MaxSizeKey, "1024") == "--max-size=1024"
    ensures Flag(BitRateKey, "4000000") == "--video-bit-rate=4000000"
    ensures Flag(MaxFpsKey, "60") == "--max-fps=60"
    ensures Flag(VideoBufferKey, "0") == "--video-buffer=0"
    ensures Flag(AudioBufferKey, "0") == "--audio-buffer=0"
    ensures Flag(CodecKey, "h264") == "--video-codec=h264"
  {
  }
}
