/** Thumbnails for the images of one Slack message, within a byte budget
    (src/plugins/llm-agent/steps/resolve-image-blocks.ts). */
module ImageBlocks {

  const SINGLE_IMAGE_BYTE_CAP: nat := 500 * 1024
  const TOTAL_IMAGE_BYTE_CAP: nat := 700 * 1024

  datatype Image = Image(bytes: seq<bv8>, ext: string)

  /** One `thumb_*` field of a Slack file, with what downloading it would give. */
  datatype Tier = Absent | DownloadFails | Downloads(image: Image)

  /** The nine `thumb_*` fields, largest first. */
  type File = seq<Tier>

  datatype Resolved<T> = Ok(value: T) | ThumbnailUnavailable

  predicate Fits(tier: Tier, cap: nat) {
    tier.Downloads? && |tier.image.bytes| <= cap
  }

  ghost predicate IsLargestFitting(file: File, cap: nat, image: Image) {
    exists i | 0 <= i < |file| ::
      Fits(file[i], cap) && file[i].image == image && forall j | 0 <= j < i :: !Fits(file[j], cap)
  }

  predicate NothingFits(file: File, cap: nat) {
    forall i | 0 <= i < |file| :: !Fits(file[i], cap)
  }

  function TotalBytes(blocks: seq<Image>): nat {
    if blocks == [] then 0 else TotalBytes(blocks[..|blocks| - 1]) + |blocks[|blocks| - 1].bytes|
  }

  /** What the next image may use once `blocks` are taken. */
  function RemainingCap(blocks: seq<Image>): nat
    requires TotalBytes(blocks) < TOTAL_IMAGE_BYTE_CAP
  {
    var left := TOTAL_IMAGE_BYTE_CAP - TotalBytes(blocks);
    if left < SINGLE_IMAGE_BYTE_CAP then left else SINGLE_IMAGE_BYTE_CAP
  }

  /** `blocks` are the thumbnails of the first `|blocks|` images, each the
      largest that the images before it left room for. */
  ghost predicate IsBudgetedPrefix(files: seq<File>, blocks: seq<Image>) {
    && |blocks| <= |files|
    && forall k | 0 <= k < |blocks| ::
         && TotalBytes(blocks[..k]) < TOTAL_IMAGE_BYTE_CAP
         && IsLargestFitting(files[k], RemainingCap(blocks[..k]), blocks[k])
  }

  /** A budgeted prefix that leaves images out only when the budget is used up. */
  ghost predicate IsSelection(files: seq<File>, blocks: seq<Image>) {
    IsBudgetedPrefix(files, blocks) && (|blocks| < |files| ==> TotalBytes(blocks) == TOTAL_IMAGE_BYTE_CAP)
  }

  /** After `blocks`, an image is reached that has no usable tier. */
  ghost predicate GetsStuckAfter(files: seq<File>, blocks: seq<Image>) {
    && IsBudgetedPrefix(files, blocks)
    && |blocks| < |files|
    && TotalBytes(blocks) < TOTAL_IMAGE_BYTE_CAP
    && NothingFits(files[|blocks|], RemainingCap(blocks))
  }

  // ---- the two loops ----

  method ResolveThumbnail(file: File, perImageCap: nat) returns (r: Resolved<Image>)
    ensures r.Ok? ==> IsLargestFitting(file, perImageCap, r.value)
    ensures r.ThumbnailUnavailable? <==> NothingFits(file, perImageCap)
  {
    for i := 0 to |file|
      invariant forall j | 0 <= j < i :: !Fits(file[j], perImageCap)
    {
      match file[i]
      case Downloads(image) =>
        if |image.bytes| <= perImageCap {
          return Ok(image);
        }
      case _ =>
    }
    return ThumbnailUnavailable;
  }

  method ResolveImageBlocks(files: seq<File>) returns (r: Resolved<seq<Image>>)
    ensures r.Ok? ==> IsSelection(files, r.value)
    ensures r.ThumbnailUnavailable? <==> exists blocks :: GetsStuckAfter(files, blocks)
  {
    var blocks: seq<Image> := [];
    var totalBytes := 0;
    for i := 0 to |files|
      invariant totalBytes == TotalBytes(blocks) <= TOTAL_IMAGE_BYTE_CAP
      invariant |blocks| == i && IsBudgetedPrefix(files, blocks)
    {
      if totalBytes >= TOTAL_IMAGE_BYTE_CAP {
        break;
      }
      var left := TOTAL_IMAGE_BYTE_CAP - totalBytes;
      var perImageCap := if left < SINGLE_IMAGE_BYTE_CAP then left else SINGLE_IMAGE_BYTE_CAP;
      var thumbnail := ResolveThumbnail(files[i], perImageCap);
      if thumbnail.ThumbnailUnavailable? {
        assert GetsStuckAfter(files, blocks);
        return ThumbnailUnavailable;
      }
      PrefixGrows(files, blocks, thumbnail.value);
      totalBytes := totalBytes + |thumbnail.value.bytes|;
      blocks := blocks + [thumbnail.value];
    }
    SelectionNeverGetsStuck(files, blocks);
    return Ok(blocks);
  }

  lemma {:induction false} PrefixGrows(files: seq<File>, blocks: seq<Image>, image: Image)
    requires IsBudgetedPrefix(files, blocks) && |blocks| < |files|
    requires TotalBytes(blocks) < TOTAL_IMAGE_BYTE_CAP
    requires IsLargestFitting(files[|blocks|], RemainingCap(blocks), image)
    ensures IsBudgetedPrefix(files, blocks + [image])
    ensures TotalBytes(blocks + [image]) == TotalBytes(blocks) + |image.bytes|
  {
    var longer := blocks + [image];
    assert longer[..|blocks|] == blocks;
    forall k | 0 <= k < |blocks| ensures longer[..k] == blocks[..k] && longer[k] == blocks[k] {}
  }

  // ---- what a selection is worth ----

  /** Each block is at most 500 KiB and all of them at most 700 KiB. */
  lemma BudgetIsKept(files: seq<File>, blocks: seq<Image>)
    requires IsBudgetedPrefix(files, blocks)
    ensures TotalBytes(blocks) <= 716_800
    ensures forall k | 0 <= k < |blocks| :: |blocks[k].bytes| <= 512_000
  {
  }

  /** No larger tier is passed over: if the `j`th tier of an image downloads and keeps within
      both caps, what is taken is that tier or a larger one. */
  lemma NoLargerTierIsPassedOver(files: seq<File>, blocks: seq<Image>, k: nat, j: nat)
    requires IsBudgetedPrefix(files, blocks) && k < |blocks| && j < |files[k]|
    requires files[k][j].Downloads? && |files[k][j].image.bytes| <= 512_000
    requires TotalBytes(blocks[..k]) + |files[k][j].image.bytes| <= 716_800
    ensures exists i | 0 <= i <= j :: files[k][i].Downloads? && files[k][i].image == blocks[k]
  {
    var cap := RemainingCap(blocks[..k]);
    var i :| 0 <= i < |files[k]| && Fits(files[k][i], cap) && files[k][i].image == blocks[k]
             && forall j' | 0 <= j' < i :: !Fits(files[k][j'], cap);
    assert Fits(files[k][j], cap);
  }

  lemma NextAgrees(files: seq<File>, a: seq<Image>, b: seq<Image>, n: nat)
    requires IsBudgetedPrefix(files, a) && IsBudgetedPrefix(files, b)
    requires n < |a| && n < |b| && a[..n] == b[..n]
    ensures a[n] == b[n]
  {
  }

  lemma OneMore<T>(a: seq<T>, b: seq<T>, n: nat)
    requires n < |a| && n < |b| && a[..n] == b[..n] && a[n] == b[n]
    ensures a[..n + 1] == b[..n + 1]
  {
  }

  /** Two budgeted prefixes agree as far as both go. */
  lemma {:induction false} PrefixesAgree(files: seq<File>, a: seq<Image>, b: seq<Image>, n: nat)
    requires IsBudgetedPrefix(files, a) && IsBudgetedPrefix(files, b)
    requires n <= |a| && n <= |b|
    ensures a[..n] == b[..n]
  {
    if n == 0 {
    } else {
      PrefixesAgree(files, a, b, n - 1);
      NextAgrees(files, a, b, n - 1);
      OneMore(a, b, n - 1);
    }
  }

  /** A budgeted prefix that goes further than another found room and a fitting tier there. */
  lemma {:induction false} LongerPrefixFoundRoom(files: seq<File>, blocks: seq<Image>, longer: seq<Image>)
    requires IsBudgetedPrefix(files, blocks) && IsBudgetedPrefix(files, longer)
    requires |blocks| < |longer|
    ensures blocks == longer[..|blocks|]
    ensures TotalBytes(blocks) < TOTAL_IMAGE_BYTE_CAP
    ensures !NothingFits(files[|blocks|], RemainingCap(blocks))
  {
    PrefixesAgree(files, blocks, longer, |blocks|);
    assert blocks == blocks[..|blocks|] == longer[..|blocks|];
    assert IsLargestFitting(files[|blocks|], RemainingCap(longer[..|blocks|]), longer[|blocks|]);
  }

  /** The images and their downloads leave no choice of blocks. */
  lemma SelectionIsUnique(files: seq<File>, a: seq<Image>, b: seq<Image>)
    requires IsSelection(files, a) && IsSelection(files, b)
    ensures a == b
  {
    if |a| < |b| {
      LongerPrefixFoundRoom(files, a, b);
    } else if |b| < |a| {
      LongerPrefixFoundRoom(files, b, a);
    } else {
      PrefixesAgree(files, a, b, |a|);
      assert a == a[..|a|] && b == b[..|a|];
    }
  }

  /** Success and failure exclude each other: one unusable image among those
      that are reached fails the whole call. */
  lemma SelectionNeverGetsStuck(files: seq<File>, blocks: seq<Image>)
    requires IsSelection(files, blocks)
    ensures !exists other :: GetsStuckAfter(files, other)
  {
    forall other | IsBudgetedPrefix(files, other) ensures !GetsStuckAfter(files, other) {
      if |other| < |blocks| {
        LongerPrefixFoundRoom(files, other, blocks);
      } else if |blocks| < |other| {
        LongerPrefixFoundRoom(files, blocks, other);
      } else {
        PrefixesAgree(files, blocks, other, |blocks|);
        assert blocks == blocks[..|blocks|] && other == other[..|blocks|];
      }
    }
  }
}
