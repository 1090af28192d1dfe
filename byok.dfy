/** The bring-your-own-key drawer of the web app
    (`web/components/byok-drawer.tsx`): masking and format checks of the
    keys, and how they are saved to, cleared from and read back out of the
    browser's local storage. */
module Byok {
  import opened Strings

  const Dots: string := "••••"

  /** `mask`: nothing for no key, only dots for a short one, otherwise the
      first two and last two characters around the dots. */
  function Mask(v: string): (r: string)
    ensures v == "" ==> r == ""
    ensures 0 < |v| <= 4 ==> r == Dots
    ensures |v| > 4 ==> |r| == 8 && StartsWith(r, v[..2]) && EndsWith(r, v[|v| - 2..]) && r[2..6] == Dots
  {
    if v == "" then ""
    else if |v| <= 4 then Dots
    else v[..2] + Dots + v[|v| - 2..]
  }

  /** A masked key gives away its two ends and nothing else: keys sharing
      them mask alike. */
  lemma MaskShowsOnlyEnds(v: string, w: string)
    requires |v| > 4 && |w| > 4
    requires v[..2] == w[..2] && v[|v| - 2..] == w[|w| - 2..]
    ensures Mask(v) == Mask(w)
  {
  }

  /** The characters of `[A-Za-z0-9_-]`. */
  predicate IsKeyChar(c: char) {
    ('A' <= c <= 'Z') || ('a' <= c <= 'z') || ('0' <= c <= '9') || c == '_' || c == '-'
  }

  /** `validGemini`: a key starting `AIza`, or starting with twenty key
      characters. */
  predicate ValidGemini(k: string): (ok: bool)
    ensures ok ==> |k| >= 4
    ensures ok && !StartsWith(k, "AIza") ==> |k| >= 20
  {
    k != "" && (StartsWith(k, "AIza") || (|k| >= 20 && forall i :: 0 <= i < 20 ==> IsKeyChar(k[i])))
  }

  /** `validFal`: no key, a `fal_` key, or a long one. */
  predicate ValidFal(k: string): (ok: bool)
    ensures !ok ==> 0 < |k| <= 20
  {
    k == "" || StartsWith(k, "fal_") || |k| > 20
  }

  /** `valid11`: no key, or one longer than ten characters. */
  predicate Valid11(k: string): (ok: bool)
    ensures !ok ==> 1 <= |k| <= 10
  {
    k == "" || |k| > 10
  }

  /** The Gemini key is required while the others are optional. */
  lemma OnlyGeminiRequired()
    ensures !ValidGemini("") && ValidFal("") && Valid11("")
  {
  }

  /** The regular expression only looks at the start: anything may follow
      an accepted beginning. */
  lemma GeminiCheckReadsPrefix(k: string, rest: string)
    requires ValidGemini(k)
    ensures ValidGemini(k + rest)
  {
    if StartsWith(k, "AIza") {
      assert (k + rest)[..4] == k[..4];
    } else {
      assert forall i :: 0 <= i < 20 ==> (k + rest)[i] == k[i];
    }
  }

  const GeminiSlot: string := "x-gemini-key"
  const FalSlot: string := "x-fal-key"
  const ElevenSlot: string := "x-elevenlabs-key"
  const VoiceSlot: string := "voice-id"
  const DefaultVoice: string := "21m00Tcm4TlvDq8ikWAM"

  /** The drawer's fields; "" is a field left empty. */
  datatype Keys = Keys(gemini: string, fal: string, eleven: string, voiceId: string)

  type Storage = map<string, string>

  /** The four slots the drawer owns. */
  const Slots: set<string> := {GeminiSlot, FalSlot, ElevenSlot, VoiceSlot}

  /** `localStorage.getItem(slot) || ""`. */
  function Get(s: Storage, slot: string): string {
    if slot in s then s[slot] else ""
  }

  function SetIf(s: Storage, slot: string, v: string): Storage {
    if v != "" then s[slot := v] else s
  }

  /** `save`: each non-empty field written to its slot. */
  function Saved(s: Storage, k: Keys): (r: Storage)
    ensures s.Keys <= r.Keys
    ensures forall slot :: slot in r && slot !in Slots ==> slot in s && r[slot] == s[slot]
    ensures Get(r, GeminiSlot) == if k.gemini != "" then k.gemini else Get(s, GeminiSlot)
    ensures Get(r, FalSlot) == if k.fal != "" then k.fal else Get(s, FalSlot)
    ensures Get(r, ElevenSlot) == if k.eleven != "" then k.eleven else Get(s, ElevenSlot)
    ensures Get(r, VoiceSlot) == if k.voiceId != "" then k.voiceId else Get(s, VoiceSlot)
  {
    SetIf(SetIf(SetIf(SetIf(s, GeminiSlot, k.gemini), FalSlot, k.fal), ElevenSlot, k.eleven), VoiceSlot, k.voiceId)
  }

  /** `clear`: the four slots removed. */
  function Cleared(s: Storage): (r: Storage)
    ensures forall slot :: slot in r <==> slot in s && slot !in Slots
    ensures forall slot :: slot in r ==> r[slot] == s[slot]
    ensures Get(r, GeminiSlot) == "" && Get(r, FalSlot) == "" && Get(r, ElevenSlot) == "" && Get(r, VoiceSlot) == ""
  {
    s - Slots
  }

  /** The fields as loaded when the drawer opens, the voice defaulted. */
  function LoadKeys(s: Storage): (k: Keys)
    ensures k.voiceId != ""
    ensures k.voiceId == DefaultVoice <==> Get(s, VoiceSlot) == "" || Get(s, VoiceSlot) == DefaultVoice
    ensures k.gemini == Get(s, GeminiSlot) && k.fal == Get(s, FalSlot) && k.eleven == Get(s, ElevenSlot)
  {
    Keys(Get(s, GeminiSlot), Get(s, FalSlot), Get(s, ElevenSlot),
         if Get(s, VoiceSlot) != "" then Get(s, VoiceSlot) else DefaultVoice)
  }

  /** `headersFromLocal`: a header for each stored, non-empty key (the
      voice is not sent). */
  function Headers(s: Storage): (h: map<string, string>)
    ensures forall slot :: slot in h <==> slot in {GeminiSlot, FalSlot, ElevenSlot} && Get(s, slot) != ""
    ensures forall slot :: slot in h ==> h[slot] == Get(s, slot)
  {
    var h0: map<string, string> := map[];
    var h1 := if Get(s, GeminiSlot) != "" then h0[GeminiSlot := s[GeminiSlot]] else h0;
    var h2 := if Get(s, FalSlot) != "" then h1[FalSlot := s[FalSlot]] else h1;
    if Get(s, ElevenSlot) != "" then h2[ElevenSlot := s[ElevenSlot]] else h2
  }

  /** Saving never deletes, and what is loaded back is each non-empty field
      saved, or what was stored before. */
  lemma SaveThenLoad(s: Storage, k: Keys)
    ensures s.Keys <= Saved(s, k).Keys
    ensures LoadKeys(Saved(s, k)).gemini == if k.gemini != "" then k.gemini else LoadKeys(s).gemini
    ensures LoadKeys(Saved(s, k)).fal == if k.fal != "" then k.fal else LoadKeys(s).fal
    ensures LoadKeys(Saved(s, k)).eleven == if k.eleven != "" then k.eleven else LoadKeys(s).eleven
    ensures LoadKeys(Saved(s, k)).voiceId == if k.voiceId != "" then k.voiceId else LoadKeys(s).voiceId
  {
  }

  /** After a save, a non-empty Gemini key goes out as its header. */
  lemma SaveThenHeaders(s: Storage, k: Keys)
    requires k.gemini != ""
    ensures GeminiSlot in Headers(Saved(s, k)) && Headers(Saved(s, k))[GeminiSlot] == k.gemini
  {
    assert Get(Saved(s, k), GeminiSlot) == k.gemini;
  }

  /** After a clear no key header is sent and the voice is the default. */
  lemma ClearThenHeaders(s: Storage)
    ensures Headers(Cleared(s)) == map[]
    ensures LoadKeys(Cleared(s)) == Keys("", "", "", DefaultVoice)
  {
  }

  /** The drawer's state: its fields, the status line and the storage. */
  class Drawer {
    var keys: Keys
    var status: string
    var storage: Storage

    /** The drawer as it opens over `storage`. */
    constructor (storage: Storage)
      ensures this.storage == storage && keys == LoadKeys(storage) && status == ""
    {
      this.storage := storage;
      keys := LoadKeys(storage);
      status := "";
    }

    method Save()
      modifies this
      ensures storage == Saved(old(storage), old(keys))
      ensures keys == old(keys) && status == "Saved"
    {
      if keys.gemini != "" { storage := storage[GeminiSlot := keys.gemini]; }
      if keys.fal != "" { storage := storage[FalSlot := keys.fal]; }
      if keys.eleven != "" { storage := storage[ElevenSlot := keys.eleven]; }
      if keys.voiceId != "" { storage := storage[VoiceSlot := keys.voiceId]; }
      status := "Saved";
    }

    method Clear()
      modifies this
      ensures storage == Cleared(old(storage))
      ensures keys == Keys("", "", "", "") && status == "Cleared"
    {
      storage := storage - {GeminiSlot};
      storage := storage - {FalSlot};
      storage := storage - {ElevenSlot};
      storage := storage - {VoiceSlot};
      keys := Keys("", "", "", "");
      status := "Cleared";
    }
  }
}
