/** The game modifiers (`OsrLib__Mods`) and the pressed-key flags of an action frame
    (`OsrLib__Keys`), as 32-bit flag words. */
module Flags {

  const NONE: bv32 := 0
  const NO_FAIL: bv32 := 1
  const EASY: bv32 := 2
  const TOUCH_DEVICE: bv32 := 4
  const HIDDEN: bv32 := 8
  const HARD_ROCK: bv32 := 16
  const SUDDEN_DEATH: bv32 := 32
  const DOUBLE_TIME: bv32 := 64
  const RELAX: bv32 := 128
  const HALF_TIME: bv32 := 256
  /** Bit 9 alone has no name: the constant carries the double-time bit with it. */
  const NIGHT_CORE: bv32 := 576
  const FLASHLIGHT: bv32 := 1024
  const AUTOPLAY: bv32 := 2048
  const SPUN_OUT: bv32 := 4096
  const AUTO_PILOT: bv32 := 8192
  const PERFECT: bv32 := 16384
  const KEY4: bv32 := 32768
  const KEY5: bv32 := 65536
  const KEY6: bv32 := 131072
  const KEY7: bv32 := 262144
  const KEY8: bv32 := 524288
  const KEY_MOD: bv32 := 1015808
  const FADE_IN: bv32 := 1048576
  const RANDOM: bv32 := 2097152
  const CINEMA: bv32 := 4194304
  const TARGET_PRACTICE: bv32 := 8388608
  const KEY9: bv32 := 16777216
  const COOP: bv32 := 33554432
  const KEY1: bv32 := 67108864
  const KEY3: bv32 := 134217728
  const KEY2: bv32 := 268435456
  const SCORE_V2: bv32 := 536870912
  const MIRROR: bv32 := 1073741824

  const M1: bv32 := 1
  const M2: bv32 := 2
  const K1: bv32 := 4
  const K2: bv32 := 8
  const SMOKE: bv32 := 16

  /** True when every bit of `flag` is set in `mods`. */
  predicate Has(mods: bv32, flag: bv32) {
    mods & flag == flag
  }

  /** `flag` when `mods` carries it, else nothing. */
  function Keep(mods: bv32, flag: bv32): bv32 {
    if Has(mods, flag) then flag else 0
  }

  /** The single-bit modifiers found in `mods`. */
  function SingleMods(mods: bv32): bv32 {
    Keep(mods, NO_FAIL) | Keep(mods, EASY) | Keep(mods, TOUCH_DEVICE) | Keep(mods, HIDDEN)
    | Keep(mods, HARD_ROCK) | Keep(mods, SUDDEN_DEATH) | Keep(mods, DOUBLE_TIME) | Keep(mods, RELAX)
    | Keep(mods, HALF_TIME) | Keep(mods, FLASHLIGHT) | Keep(mods, AUTOPLAY)
    | Keep(mods, SPUN_OUT) | Keep(mods, AUTO_PILOT) | Keep(mods, PERFECT) | Keep(mods, KEY4)
    | Keep(mods, KEY5) | Keep(mods, KEY6) | Keep(mods, KEY7) | Keep(mods, KEY8)
    | Keep(mods, FADE_IN) | Keep(mods, RANDOM) | Keep(mods, CINEMA)
    | Keep(mods, TARGET_PRACTICE) | Keep(mods, KEY9) | Keep(mods, COOP) | Keep(mods, KEY1)
    | Keep(mods, KEY3) | Keep(mods, KEY2) | Keep(mods, SCORE_V2) | Keep(mods, MIRROR)
  }

  /** The flag word rebuilt from every named modifier found in `mods`, the two
      composites included. */
  function Recompose(mods: bv32): bv32 {
    SingleMods(mods) | Keep(mods, NIGHT_CORE) | Keep(mods, KEY_MOD)
  }

  /** For a flag of one bit, keeping it is masking with it. */
  lemma KeepBit(mods: bv32, flag: bv32)
    requires flag != 0 && flag & (flag - 1) == 0
    ensures Keep(mods, flag) == mods & flag
  {
  }

  /** The single-bit modifiers cover bits 0 to 30 except bit 9. */
  lemma SingleModsMask(mods: bv32)
    ensures SingleMods(mods) == mods & 0x7FFF_FDFF
  {
    KeepBit(mods, NO_FAIL); KeepBit(mods, EASY); KeepBit(mods, TOUCH_DEVICE); KeepBit(mods, HIDDEN);
    KeepBit(mods, HARD_ROCK); KeepBit(mods, SUDDEN_DEATH); KeepBit(mods, DOUBLE_TIME); KeepBit(mods, RELAX);
    KeepBit(mods, HALF_TIME); KeepBit(mods, FLASHLIGHT); KeepBit(mods, AUTOPLAY);
    KeepBit(mods, SPUN_OUT); KeepBit(mods, AUTO_PILOT); KeepBit(mods, PERFECT); KeepBit(mods, KEY4);
    KeepBit(mods, KEY5); KeepBit(mods, KEY6); KeepBit(mods, KEY7); KeepBit(mods, KEY8);
    KeepBit(mods, FADE_IN); KeepBit(mods, RANDOM); KeepBit(mods, CINEMA);
    KeepBit(mods, TARGET_PRACTICE); KeepBit(mods, KEY9); KeepBit(mods, COOP); KeepBit(mods, KEY1);
    KeepBit(mods, KEY3); KeepBit(mods, KEY2); KeepBit(mods, SCORE_V2); KeepBit(mods, MIRROR);
  }

  /** Night core is bit 9 together with double time. */
  lemma NightCoreIsDoubleTime()
    ensures NIGHT_CORE == 512 | DOUBLE_TIME
    ensures Has(NIGHT_CORE, DOUBLE_TIME)
  {
  }

  /** The key-count composite is exactly the five key mods. */
  lemma KeyModIsKeys()
    ensures KEY_MOD == KEY4 | KEY5 | KEY6 | KEY7 | KEY8
  {
  }

  /** Decomposing a flag word into its named modifiers loses nothing exactly when the
      word has no unnamed bit: bit 31 is clear, and bit 9 comes with double time. */
  lemma RecomposeLossless(mods: bv32)
    ensures Recompose(mods) == mods <==> mods & 0x8000_0000 == 0 && (mods & 512 != 0 ==> Has(mods, DOUBLE_TIME))
  {
    SingleModsMask(mods);
    var single := mods & 0x7FFF_FDFF;
    MaskKeys(mods);
    assert Recompose(mods) == single | Keep(mods, NIGHT_CORE);
    if Has(mods, NIGHT_CORE) {
      MaskNightCore(mods);
      TopBit(mods);
    } else {
      NoNightCore(mods);
      assert single | 0 == single;
    }
  }

  /** The key-count composite adds nothing to the single-bit modifiers. */
  lemma MaskKeys(mods: bv32)
    ensures (mods & 0x7FFF_FDFF) | Keep(mods, KEY_MOD) == mods & 0x7FFF_FDFF
  {
    if Has(mods, KEY_MOD) {
      assert (mods & 0x7FFF_FDFF) & KEY_MOD == KEY_MOD;
    }
  }

  /** Night core adds back bit 9. */
  lemma MaskNightCore(mods: bv32)
    requires Has(mods, NIGHT_CORE)
    ensures (mods & 0x7FFF_FDFF) | NIGHT_CORE == mods & 0x7FFF_FFFF
  {
  }

  lemma TopBit(mods: bv32)
    ensures mods & 0x7FFF_FFFF == mods <==> mods & 0x8000_0000 == 0
  {
  }

  /** Without night core, bit 9 with double time cannot both be set. */
  lemma NoNightCore(mods: bv32)
    requires !Has(mods, NIGHT_CORE)
    ensures mods & 0x7FFF_FDFF == mods <==> mods & 0x8000_0000 == 0 && mods & 512 == 0
    ensures mods & 512 != 0 ==> !Has(mods, DOUBLE_TIME)
  {
  }

  /** The key flags found in the `keys` word of an action frame. */
  function Keys(keys: bv32): bv32 {
    Keep(keys, M1) | Keep(keys, M2) | Keep(keys, K1) | Keep(keys, K2) | Keep(keys, SMOKE)
  }

  /** The five key flags are bits 0 to 4, so decomposing a keys word into them keeps
      exactly its low five bits, and loses nothing exactly when no higher bit is set. */
  lemma KeysRecompose(keys: bv32)
    ensures Keys(keys) == keys & 31
    ensures Keys(keys) == keys <==> keys & 0xFFFF_FFE0 == 0
  {
  }
}
