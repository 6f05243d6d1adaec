/** A 64-bit word holding a 43-bit pointer and a 19-bit tag. */
module PackedPointer {

  const WORD := 0x1_0000_0000_0000_0000
  const ADDRESSES := 0x800_0000_0000       // 2^43
  const TAG_UNIT := 0x2000_0000_0000       // 2^45
  const TAGS := 0x8_0000                   // 2^19

  /** The masked pointer below, the tag shifted by 45 with its upper bits lost above. */
  function Pack(pointer: nat, tag: nat): (w: nat)
    ensures w < WORD
  {
    PackedFits(pointer, tag);
    pointer % ADDRESSES + tag * TAG_UNIT % WORD
  }

  function PointerOf(w: nat): (p: nat)
    ensures p < ADDRESSES
  { w % ADDRESSES }

  function TagOf(w: nat): nat { w / TAG_UNIT }

  lemma ShiftedTag(tag: nat)
    ensures tag * TAG_UNIT % WORD == tag % TAGS * TAG_UNIT
  {
    assert tag == tag / TAGS * TAGS + tag % TAGS;
    assert tag * TAG_UNIT == tag / TAGS * WORD + tag % TAGS * TAG_UNIT;
    assert 0 <= tag % TAGS * TAG_UNIT < WORD;
  }

  lemma PackedFits(pointer: nat, tag: nat)
    ensures pointer % ADDRESSES + tag * TAG_UNIT % WORD < WORD
  {
    ShiftedTag(tag);
  }

  lemma PartsOf(p: nat, k: nat)
    requires p < ADDRESSES && k < TAGS
    ensures (p + k * TAG_UNIT) / TAG_UNIT == k && (p + k * TAG_UNIT) % ADDRESSES == p
  {
    var q := 4 * k;
    assert k * TAG_UNIT == q * ADDRESSES;
    assert (p + q * ADDRESSES) / ADDRESSES == q;
  }

  lemma PackIs(pointer: nat, tag: nat)
    ensures Pack(pointer, tag) == pointer % ADDRESSES + tag % TAGS * TAG_UNIT
  {
    ShiftedTag(tag);
  }

  lemma UnpackPacked(pointer: nat, tag: nat)
    ensures PointerOf(Pack(pointer, tag)) == pointer % ADDRESSES
    ensures TagOf(Pack(pointer, tag)) == tag % TAGS
  {
    hide Pack;
    PackIs(pointer, tag);
    PartsOf(pointer % ADDRESSES, tag % TAGS);
  }

  /** Packing loses nothing exactly for 43-bit pointers and 19-bit tags. */
  lemma RoundTrip(pointer: nat, tag: nat)
    ensures PointerOf(Pack(pointer, tag)) == pointer && TagOf(Pack(pointer, tag)) == tag <==>
              pointer < ADDRESSES && tag < TAGS
  {
    UnpackPacked(pointer, tag);
  }

  /** A word is rebuilt from its parts exactly when the two bits between them are 0. */
  lemma PackUnpacked(w: nat)
    requires w < WORD
    ensures Pack(PointerOf(w), TagOf(w)) == w <==> w % TAG_UNIT < ADDRESSES
  {
    ShiftedTag(TagOf(w));
    assert w == TagOf(w) * TAG_UNIT + w % TAG_UNIT;
    var low := w % TAG_UNIT;
    assert w == 4 * TagOf(w) * ADDRESSES + low;
    assert w % ADDRESSES == low % ADDRESSES;
  }

  /** Each swap moves the tag on by one, around a ring of 2^19. */
  lemma NextTag(pointer: nat, w: nat, swaps: nat)
    requires pointer < ADDRESSES && TagOf(w) == swaps % TAGS
    ensures PointerOf(Pack(pointer, TagOf(w) + 1)) == pointer
    ensures TagOf(Pack(pointer, TagOf(w) + 1)) == (swaps + 1) % TAGS
  {
    UnpackPacked(pointer, TagOf(w) + 1);
    assert (swaps % TAGS + 1) % TAGS == (swaps + 1) % TAGS;
  }

  /** A packed word has nothing between its parts, so the parts determine it. */
  lemma PackedIsCanonical(pointer: nat, tag: nat)
    ensures Pack(pointer, tag) % TAG_UNIT < ADDRESSES
  {
    ShiftedTag(tag);
    var p, k := pointer % ADDRESSES, tag % TAGS;
    assert (p + k * TAG_UNIT) % TAG_UNIT == p;
  }

  lemma SameParts(v: nat, w: nat)
    requires v < WORD && w < WORD && v % TAG_UNIT < ADDRESSES && w % TAG_UNIT < ADDRESSES
    requires PointerOf(v) == PointerOf(w) && TagOf(v) == TagOf(w)
    ensures v == w
  {
    PackUnpacked(v);
    PackUnpacked(w);
  }
}
