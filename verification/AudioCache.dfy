/** The cache of synthesised audio files (audio/cache.py). */
module AudioCache {
  import opened Prelude
  import opened Sorting

  /** Numbers are given as they are printed. */
  datatype VoiceConfig = VoiceConfig(
    provider: string, voiceId: string, speed: string,
    pitch: Option<string>, stability: Option<string>, voiceMode: Option<string>, voiceDesignPrompt: Option<string>,
    cloneAudioPath: Option<string>, cloneAudioText: Option<string>, language: string, modelVariant: string)

  // ----- Keys -----

  /** The text that is hashed into the key. */
  function KeyText(text: string, voice: VoiceConfig): string {
    text + "|" + voice.provider + "|" + voice.voiceId + "|" + voice.speed
  }

  function AfterLastBar(s: string): (r: string)
    ensures |r| <= |s| && s[|s| - |r|..] == r && '|' !in r
    ensures '|' in s ==> |r| < |s| && s[|s| - |r| - 1] == '|'
  {
    if s == "" || s[|s| - 1] == '|' then "" else AfterLastBar(s[..|s| - 1]) + [s[|s| - 1]]
  }

  lemma {:induction false} AfterLastBarIs(a: string, x: string)
    requires '|' !in x
    ensures AfterLastBar(a + "|" + x) == x
  {
    if x != "" {
      AfterLastBarIs(a, x[..|x| - 1]);
      assert (a + "|" + x)[..|a + "|" + x| - 1] == a + "|" + x[..|x| - 1];
    } else {
      assert a + "|" + x == a + "|";
    }
  }

  lemma LastBarSplits(a: string, x: string, b: string, y: string)
    requires a + "|" + x == b + "|" + y && '|' !in x && '|' !in y
    ensures a == b && x == y
  {
    AfterLastBarIs(a, x);
    AfterLastBarIs(b, y);
    assert a == (a + "|" + x)[..|a|] && b == (b + "|" + y)[..|b|];
  }

  predicate HasNoBar(voice: VoiceConfig) {
    '|' !in voice.provider && '|' !in voice.voiceId && '|' !in voice.speed
  }

  /** The part of a request that the key is meant to stand for. */
  predicate SameKeyed(text: string, voice: VoiceConfig, otherText: string, other: VoiceConfig) {
    text == otherText && voice.provider == other.provider && voice.voiceId == other.voiceId
      && voice.speed == other.speed
  }

  /** Without bars the key text tells exactly text, provider, voice id and speed; the text may hold any characters. */
  lemma KeyTextsAreEqualIff(text: string, voice: VoiceConfig, otherText: string, other: VoiceConfig)
    requires HasNoBar(voice) && HasNoBar(other)
    ensures KeyText(text, voice) == KeyText(otherText, other) <==> SameKeyed(text, voice, otherText, other)
  {
    if KeyText(text, voice) == KeyText(otherText, other) {
      LastBarSplits(text + "|" + voice.provider + "|" + voice.voiceId, voice.speed,
                    otherText + "|" + other.provider + "|" + other.voiceId, other.speed);
      LastBarSplits(text + "|" + voice.provider, voice.voiceId, otherText + "|" + other.provider, other.voiceId);
      LastBarSplits(text, voice.provider, otherText, other.provider);
    }
  }

  /** The same voice in two languages. */
  lemma LanguagesShareKeys(text: string, voice: VoiceConfig, language: string)
    requires language != voice.language
    ensures voice.(language := language) != voice
    ensures KeyText(text, voice.(language := language)) == KeyText(text, voice)
  {
  }

  function Bars(s: string): nat {
    multiset(s)['|']
  }

  /** A text with bars is cut at its last one. */
  lemma CutAtLastBar(s: string) returns (a: string, x: string)
    requires Bars(s) > 0
    ensures s == a + "|" + x && '|' !in x && Bars(a) == Bars(s) - 1
  {
    assert '|' in multiset(s);
    x := AfterLastBar(s);
    a := s[..|s| - |x| - 1];
    assert s == a + "|" + x;
    assert multiset(s) == multiset(a) + multiset("|") + multiset(x);
    assert '|' !in multiset(x);
  }

  /** Reading a key text from its last three bars gives a request without bars in its fields. */
  lemma BarFreeReading(text: string, voice: VoiceConfig) returns (otherText: string, other: VoiceConfig)
    ensures HasNoBar(other) && KeyText(otherText, other) == KeyText(text, voice)
  {
    var key := KeyText(text, voice);
    assert multiset(key) == multiset(text) + multiset("|") + multiset(voice.provider) + multiset("|")
                            + multiset(voice.voiceId) + multiset("|") + multiset(voice.speed);
    var front, speed := CutAtLastBar(key);
    var first, voiceId := CutAtLastBar(front);
    var rest, provider := CutAtLastBar(first);
    otherText, other := rest, voice.(provider := provider, voiceId := voiceId, speed := speed);
  }

  /** A request shares its key text with no other bar-free request exactly if it has no bar itself. */
  lemma KeyIsUnambiguousIff(text: string, voice: VoiceConfig)
    ensures (forall otherText: string, other: VoiceConfig ::
               HasNoBar(other) && KeyText(otherText, other) == KeyText(text, voice) ==>
                 SameKeyed(text, voice, otherText, other))
       <==> HasNoBar(voice)
  {
    hide KeyText;
    if HasNoBar(voice) {
      forall otherText: string, other: VoiceConfig | HasNoBar(other)
        && KeyText(otherText, other) == KeyText(text, voice)
        ensures SameKeyed(text, voice, otherText, other)
      {
        KeyTextsAreEqualIff(text, voice, otherText, other);
      }
    } else {
      var otherText, other := BarFreeReading(text, voice);
    }
  }

  /** A bar in a provider name makes different requests share a key. */
  lemma BarInProviderCollides(text: string, a: string, b: string, voice: VoiceConfig)
    ensures KeyText(text, voice.(provider := a + "|" + b)) == KeyText(text + "|" + a, voice.(provider := b))
    ensures text != text + "|" + a
  {
    assert text + "|" + (a + "|" + b) == text + "|" + a + "|" + b;
    assert |text| < |text + "|" + a|;
  }

  // ----- Files -----

  datatype File = File(size: nat, modified: int)

  datatype Entry = Entry(name: string, file: File)

  predicate HasSuffix(name: string, suffix: string) {
    |suffix| <= |name| && name[|name| - |suffix|..] == suffix
  }

  predicate IsAudioName(name: string) {
    HasSuffix(name, ".mp3") || HasSuffix(name, ".wav")
  }

  predicate IsOlder(a: Entry, b: Entry) {
    a.file.modified <= b.file.modified
  }

  /** The audio files, each once, in any order. */
  ghost predicate IsListing(listing: seq<Entry>, files: map<string, File>) {
    && (forall e :: e in listing <==> e.name in files && IsAudioName(e.name) && e.file == files[e.name])
    && (forall i, j :: 0 <= i < j < |listing| ==> listing[i].name != listing[j].name)
  }

  function TotalSize(entries: seq<Entry>): nat {
    if entries == [] then 0 else entries[0].file.size + TotalSize(entries[1..])
  }

  /** Each entry counts once with its size. */
  lemma {:induction false} SizesAddUp(entries: seq<Entry>, more: seq<Entry>, e: Entry)
    ensures TotalSize(entries + more) == TotalSize(entries) + TotalSize(more)
    ensures TotalSize([e]) == e.file.size
  {
    assert [e][1..] == [];
    if entries == [] {
      assert entries + more == more;
    } else {
      assert (entries + more)[1..] == entries[1..] + more;
      SizesAddUp(entries[1..], more, e);
    }
  }

  /** How many of the entries, oldest first, are removed. */
  function EvictionCount(entries: seq<Entry>, maxSize: nat): (k: nat)
    ensures k <= |entries|
  {
    if TotalSize(entries) <= maxSize || entries == [] then 0 else 1 + EvictionCount(entries[1..], maxSize)
  }

  function Names(entries: seq<Entry>): set<string> {
    set e | e in entries :: e.name
  }

  /** The removed prefix is the shortest one that brings the total within the limit. */
  lemma {:induction false} EvictionIsShortest(entries: seq<Entry>, maxSize: nat)
    ensures TotalSize(entries[EvictionCount(entries, maxSize)..]) <= maxSize
    ensures forall j :: 0 <= j < EvictionCount(entries, maxSize) ==> TotalSize(entries[j..]) > maxSize
  {
    if TotalSize(entries) > maxSize && entries != [] {
      EvictionIsShortest(entries[1..], maxSize);
      var k := EvictionCount(entries[1..], maxSize);
      assert entries[1..][k..] == entries[k + 1..];
      forall j | 0 <= j < k + 1 ensures TotalSize(entries[j..]) > maxSize {
        if j > 0 {
          assert entries[1..][j - 1..] == entries[j..];
        } else {
          assert entries[0..] == entries;
        }
      }
    } else {
      assert entries[0..] == entries;
    }
  }

  /** A last entry within the limit is not removed. */
  lemma {:induction false} LastSurvives(entries: seq<Entry>, maxSize: nat)
    requires entries != [] && entries[|entries| - 1].file.size <= maxSize
    ensures EvictionCount(entries, maxSize) < |entries|
  {
    if |entries| == 1 {
      assert TotalSize(entries[1..]) == 0;
    } else {
      LastSurvives(entries[1..], maxSize);
    }
  }

  lemma NothingEvicted(sorted: seq<Entry>)
    ensures Names(sorted[..0]) == {} && sorted[0..] == sorted
  {
  }

  lemma EvictOne(sorted: seq<Entry>, removed: nat, maxSize: nat)
    requires removed < |sorted| && TotalSize(sorted[removed..]) > maxSize
    ensures sorted[removed..][1..] == sorted[removed + 1..]
    ensures TotalSize(sorted[removed..]) == sorted[removed].file.size + TotalSize(sorted[removed + 1..])
    ensures EvictionCount(sorted[removed..], maxSize) == 1 + EvictionCount(sorted[removed + 1..], maxSize)
    ensures Names(sorted[..removed + 1]) == Names(sorted[..removed]) + {sorted[removed].name}
  {
    assert sorted[removed..][1..] == sorted[removed + 1..];
    assert sorted[..removed + 1] == sorted[..removed] + [sorted[removed]];
  }

  lemma EnoughEvicted(entries: seq<Entry>, maxSize: nat)
    requires TotalSize(entries) <= maxSize || entries == []
    ensures EvictionCount(entries, maxSize) == 0
  {
  }

  /** The mp3 file of the key, or else its wav file. */
  function Lookup(key: string, files: map<string, File>): Option<string> {
    if key + ".mp3" in files then Some(key + ".mp3")
    else if key + ".wav" in files then Some(key + ".wav")
    else None
  }

  /** The two names under which a key can be found. */
  lemma NamesOfKey(key: string)
    ensures IsAudioName(key + ".mp3") && IsAudioName(key + ".wav") && key + ".mp3" != key + ".wav"
  {
    assert (key + ".mp3")[|key|..] == ".mp3" && (key + ".wav")[|key|..] == ".wav";
  }

  class Cache {
    const maxSizeBytes: nat
    const hash: string -> string
    var files: map<string, File>

    constructor (maxSizeMb: nat, hash: string -> string)
      ensures files == map[] && this.hash == hash && maxSizeBytes == maxSizeMb * 1024 * 1024
    {
      maxSizeBytes := maxSizeMb * 1024 * 1024;
      this.hash := hash;
      files := map[];
    }

    function Key(text: string, voice: VoiceConfig): string {
      hash(KeyText(text, voice))
    }

    method Get(text: string, voice: VoiceConfig) returns (path: Option<string>)
      ensures path == Lookup(Key(text, voice), files)
    {
      var key := Key(text, voice);
      for i := 0 to 2
        invariant i > 0 ==> key + ".mp3" !in files
        invariant i > 1 ==> key + ".wav" !in files
      {
        var file := key + if i == 0 then ".mp3" else ".wav";
        if file in files {
          return Some(file);
        }
      }
      return None;
    }

    /** Removes the oldest audio files until the rest fits. */
    method EnforceSizeLimit(listing: seq<Entry>)
      requires IsListing(listing, files)
      modifies this
      ensures
        var sorted := Sort(listing, IsOlder);
        files == old(files) - Names(sorted[..EvictionCount(sorted, maxSizeBytes)])
    {
      var sorted := Sort(listing, IsOlder);
      var cacheFiles := sorted;
      var totalSize := TotalSize(cacheFiles);
      ghost var removed := 0;
      NothingEvicted(sorted);
      hide Names, Sort, IsOlder, IsListing, EvictionCount, TotalSize;
      while totalSize > maxSizeBytes && cacheFiles != []
        invariant removed <= |sorted| && cacheFiles == sorted[removed..] && totalSize == TotalSize(cacheFiles)
        invariant removed + EvictionCount(cacheFiles, maxSizeBytes) == EvictionCount(sorted, maxSizeBytes)
        invariant files == old(files) - Names(sorted[..removed])
        decreases |cacheFiles|
      {
        EvictOne(sorted, removed, maxSizeBytes);
        var oldest := cacheFiles[0];
        files := files - {oldest.name};
        totalSize := totalSize - oldest.file.size;
        cacheFiles := cacheFiles[1..];
        removed := removed + 1;
      }
      EnoughEvicted(cacheFiles, maxSizeBytes);
    }

    /** `suffix` is the suffix of the audio file or ".mp3"; `listing` is what the directory then holds. */
    method Set(text: string, voice: VoiceConfig, suffix: string, size: nat, now: int, listing: seq<Entry>)
        returns (path: string)
      requires IsListing(listing, files[Key(text, voice) + suffix := File(size, now)])
      modifies this
      ensures path == Key(text, voice) + suffix
      ensures
        var sorted := Sort(listing, IsOlder);
        files == old(files)[path := File(size, now)] - Names(sorted[..EvictionCount(sorted, maxSizeBytes)])
      ensures (suffix in {".mp3", ".wav"} && size <= maxSizeBytes
               && forall e :: e in listing && e.name != path ==> e.file.modified < now) ==>
          var key, sorted := Key(text, voice), Sort(listing, IsOlder);
          && path in files && files[path] == File(size, now) && Lookup(key, files).Some?
          && (Lookup(key, files) == Some(path) <==>
                suffix == ".mp3" || key + ".mp3" !in old(files)
                || key + ".mp3" in Names(sorted[..EvictionCount(sorted, maxSizeBytes)]))
    {
      hide Names, IsListing, EvictionCount, IsAudioName, Sort, IsOlder, KeyText;
      NamesOfKey(Key(text, voice));
      path := Key(text, voice) + suffix;
      files := files[path := File(size, now)];
      ghost var stored := files;
      EnforceSizeLimit(listing);
      if suffix in {".mp3", ".wav"} && size <= maxSizeBytes
        && forall e :: e in listing && e.name != path ==> e.file.modified < now
      {
        NewestSurvives(listing, stored, path, maxSizeBytes);
      }
    }
  }

  /** The strictly newest audio file, if it fits by itself, is not removed. */
  lemma NewestSurvives(listing: seq<Entry>, files: map<string, File>, path: string, maxSize: nat)
    requires IsListing(listing, files) && path in files && IsAudioName(path) && files[path].size <= maxSize
    requires forall e :: e in listing && e.name != path ==> e.file.modified < files[path].modified
    ensures
      var sorted := Sort(listing, IsOlder);
      path !in Names(sorted[..EvictionCount(sorted, maxSize)])
  {
    var sorted := Sort(listing, IsOlder);
    var newest := Entry(path, files[path]);
    SortIsSorted(listing, IsOlder);
    SameElements(sorted, listing);
    assert newest in sorted;
    NewestIsLast(sorted, newest);
    LastSurvives(sorted, maxSize);
    SortKeepsDistinct(listing, IsOlder);
    var kept := EvictionCount(sorted, maxSize);
    forall e | e in sorted[..kept] ensures e.name != path {
      var i :| 0 <= i < kept && sorted[i] == e;
      assert sorted[i] != sorted[|sorted| - 1];
      assert e in listing;
    }
  }

  lemma NewestIsLast(sorted: seq<Entry>, newest: Entry)
    requires IsSorted(sorted, IsOlder) && newest in sorted
    requires forall e :: e in sorted && e.name != newest.name ==> e.file.modified < newest.file.modified
    requires forall e :: e in sorted && e.name == newest.name ==> e == newest
    ensures sorted[|sorted| - 1] == newest
  {
    var i :| 0 <= i < |sorted| && sorted[i] == newest;
    if i < |sorted| - 1 {
      assert IsOlder(sorted[i], sorted[|sorted| - 1]);
    }
  }

  /** A wav file stored behind an older mp3 file of its key, where both fit, is not found. */
  lemma WavIsShadowed(key: string, mp3: File, wav: File, maxSize: nat)
    requires mp3.modified < wav.modified && mp3.size + wav.size <= maxSize
    ensures
      var files := map[key + ".mp3" := mp3][key + ".wav" := wav];
      var listing := [Entry(key + ".mp3", mp3), Entry(key + ".wav", wav)];
      var sorted := Sort(listing, IsOlder);
      && IsListing(listing, files)
      && Lookup(key, files - Names(sorted[..EvictionCount(sorted, maxSize)])) == Some(key + ".mp3")
  {
    NamesOfKey(key);
    hide IsAudioName;
    var listing := [Entry(key + ".mp3", mp3), Entry(key + ".wav", wav)];
    var sorted := Sort(listing, IsOlder);
    assert Sort(listing[1..], IsOlder) == listing[1..];
    assert sorted == listing;
    assert TotalSize(listing[1..]) == wav.size + TotalSize(listing[1..][1..]);
    assert TotalSize(listing) == mp3.size + wav.size;
    assert Names(sorted[..0]) == {};
  }
}
