/** Blocks written by old versions of the compressor may have been changed at places that a fixed table gives. */
module Randomise {

  import opened Rotations

  /** BZ2_rNums, the distances between the places, in rows of 32. */
  function Row(k: int): (r: seq<int>)
    ensures |r| == 32
  {
    match k
    case 0 => [619, 720, 127, 481, 931, 816, 813, 233, 566, 247, 985, 724, 205, 454, 863, 491,
      741, 242, 949, 214, 733, 859, 335, 708, 621, 574, 73, 654, 730, 472, 419, 436]
    case 1 => [278, 496, 867, 210, 399, 680, 480, 51, 878, 465, 811, 169, 869, 675, 611, 697,
      867, 561, 862, 687, 507, 283, 482, 129, 807, 591, 733, 623, 150, 238, 59, 379]
    case 2 => [684, 877, 625, 169, 643, 105, 170, 607, 520, 932, 727, 476, 693, 425, 174, 647,
      73, 122, 335, 530, 442, 853, 695, 249, 445, 515, 909, 545, 703, 919, 874, 474]
    case 3 => [882, 500, 594, 612, 641, 801, 220, 162, 819, 984, 589, 513, 495, 799, 161, 604,
      958, 533, 221, 400, 386, 867, 600, 782, 382, 596, 414, 171, 516, 375, 682, 485]
    case 4 => [911, 276, 98, 553, 163, 354, 666, 933, 424, 341, 533, 870, 227, 730, 475, 186,
      263, 647, 537, 686, 600, 224, 469, 68, 770, 919, 190, 373, 294, 822, 808, 206]
    case 5 => [184, 943, 795, 384, 383, 461, 404, 758, 839, 887, 715, 67, 618, 276, 204, 918,
      873, 777, 604, 560, 951, 160, 578, 722, 79, 804, 96, 409, 713, 940, 652, 934]
    case 6 => [970, 447, 318, 353, 859, 672, 112, 785, 645, 863, 803, 350, 139, 93, 354, 99,
      820, 908, 609, 772, 154, 274, 580, 184, 79, 626, 630, 742, 653, 282, 762, 623]
    case 7 => [680, 81, 927, 626, 789, 125, 411, 521, 938, 300, 821, 78, 343, 175, 128, 250,
      170, 774, 972, 275, 999, 639, 495, 78, 352, 126, 857, 956, 358, 619, 580, 124]
    case 8 => [737, 594, 701, 612, 669, 112, 134, 694, 363, 992, 809, 743, 168, 974, 944, 375,
      748, 52, 600, 747, 642, 182, 862, 81, 344, 805, 988, 739, 511, 655, 814, 334]
    case 9 => [249, 515, 897, 955, 664, 981, 649, 113, 974, 459, 893, 228, 433, 837, 553, 268,
      926, 240, 102, 654, 459, 51, 686, 754, 806, 760, 493, 403, 415, 394, 687, 700]
    case 10 => [946, 670, 656, 610, 738, 392, 760, 799, 887, 653, 978, 321, 576, 617, 626, 502,
      894, 679, 243, 440, 680, 879, 194, 572, 640, 724, 926, 56, 204, 700, 707, 151]
    case 11 => [457, 449, 797, 195, 791, 558, 945, 679, 297, 59, 87, 824, 713, 663, 412, 693,
      342, 606, 134, 108, 571, 364, 631, 212, 174, 643, 304, 329, 343, 97, 430, 751]
    case 12 => [497, 314, 983, 374, 822, 928, 140, 206, 73, 263, 980, 736, 876, 478, 430, 305,
      170, 514, 364, 692, 829, 82, 855, 953, 676, 246, 369, 970, 294, 750, 807, 827]
    case 13 => [150, 790, 288, 923, 804, 378, 215, 828, 592, 281, 565, 555, 710, 82, 896, 831,
      547, 261, 524, 462, 293, 465, 502, 56, 661, 821, 976, 991, 658, 869, 905, 758]
    case 14 => [745, 193, 768, 550, 608, 933, 378, 286, 215, 979, 792, 961, 61, 688, 793, 644,
      986, 403, 106, 366, 905, 644, 372, 567, 466, 434, 645, 210, 389, 550, 919, 135]
    case _ => [780, 773, 635, 389, 707, 100, 626, 958, 165, 504, 920, 176, 193, 713, 857, 265,
      203, 50, 668, 108, 645, 990, 626, 197, 510, 357, 358, 850, 858, 364, 936, 638]
  }

  function RNum(i: int): int
    requires 0 <= i < 512
  {
    hide Row;
    Row(i / 32)[i % 32]
  }

  /** rNToGo and rTPos. */
  datatype Mask = Mask(toGo: int, at: int)

  /** BZ_RAND_UPD_MASK. */
  function Updated(r: Mask): (r': Mask)
    requires 0 <= r.at < 512
    ensures 0 <= r'.at < 512
  {
    hide RNum;
    if r.toGo == 0 then Mask(RNum(r.at) - 1, if r.at + 1 == 512 then 0 else r.at + 1) else Mask(r.toGo - 1, r.at)
  }

  /** The mask after n bytes; BZ_RAND_INIT_MASK before the first. */
  function MaskAfter(n: nat): (r: Mask)
    ensures 0 <= r.at < 512
  {
    hide Updated;
    if n == 0 then Mask(0, 0) else Updated(MaskAfter(n - 1))
  }

  /** c ^ BZ_RAND_MASK. */
  function Flipped(c: int, r: Mask): int {
    if r.toGo != 1 then c else if c % 2 == 0 then c + 1 else c - 1
  }

  lemma FlippedByte(c: int, r: Mask)
    requires 0 <= c < 256
    ensures 0 <= Flipped(c, r) < 256
  {
  }

  /** A block as it is put out: changed back, if it was changed. */
  function Shown(randomised: bool, u: seq<int>): (b: seq<int>)
    ensures |b| == |u| && (!randomised ==> b == u)
    ensures randomised ==> forall k :: 0 <= k < |u| ==> b[k] == Flipped(u[k], MaskAfter(k + 1))
  {
    hide MaskAfter;
    if randomised then seq(|u|, k requires 0 <= k < |u| => Flipped(u[k], MaskAfter(k + 1))) else u
  }

  lemma ShownPlain(u: seq<int>)
    ensures Shown(false, u) == u
  {
  }

  lemma ShownBytes(randomised: bool, u: seq<int>)
    requires Bytes(u)
    ensures Bytes(Shown(randomised, u))
  {
    hide Flipped, MaskAfter;
    var b := Shown(randomised, u);
    forall k | 0 <= k < |b| ensures 0 <= b[k] < 256 { FlippedByte(u[k], MaskAfter(k + 1)); }
  }

  /** Changing a block twice gives it back. */
  lemma ShownTwice(u: seq<int>)
    ensures Shown(true, Shown(true, u)) == u
  {
    hide MaskAfter;
    var b := Shown(true, u);
    forall k | 0 <= k < |u| ensures Shown(true, b)[k] == u[k] { FlippedTwice(u[k], MaskAfter(k + 1)); }
  }

  lemma FlippedTwice(c: int, r: Mask)
    ensures Flipped(Flipped(c, r), r) == c
  {
  }
}
