/** The example "abc" of FIPS 180-4, worked through the block function. */
module Sha1Example {
  import opened Octets
  import opened Sha1

  const ABC: seq<bv8> := [0x61, 0x62, 0x63]

  /** The one block of its padding. */
  predicate IsAbc(p: seq<bv8>) {
    && |p| == 64 && p[0] == 0x61 && p[1] == 0x62 && p[2] == 0x63 && p[3] == 0x80 && p[63] == 0x18
    && forall k: nat :: 4 <= k < 63 ==> p[k] == 0
  }

  // ---------- The message schedule ----------

  lemma FirstWords(p: seq<bv8>)
    requires IsAbc(p)
    ensures Schedule(p, 0) == 0x61626380 && Schedule(p, 15) == 0x18
    ensures forall i: nat :: 0 < i < 15 ==> Schedule(p, i) == 0
  {
  }

  lemma Word(p: seq<bv8>, i: nat, x: Word, y: Word, z: Word, t: Word, w: Word)
    requires |p| == 64 && 16 <= i < 80 && w == Mix(x, y, z, t)
    requires Schedule(p, i - 3) == x && Schedule(p, i - 8) == y && Schedule(p, i - 14) == z && Schedule(p, i - 16) == t
    ensures Schedule(p, i) == w
  {
    hide Mix;
  }

  lemma Words16(p: seq<bv8>)
    requires IsAbc(p)
    ensures Schedule(p, 16) == 0xC2C4C700 && Schedule(p, 17) == 0x00000000 && Schedule(p, 18) == 0x00000030
    ensures Schedule(p, 19) == 0x85898E01 && Schedule(p, 20) == 0x00000000 && Schedule(p, 21) == 0x00000060
    ensures Schedule(p, 22) == 0x0B131C03 && Schedule(p, 23) == 0x00000030 && Schedule(p, 24) == 0x85898EC1
    ensures Schedule(p, 25) == 0x16263806 && Schedule(p, 26) == 0x00000000 && Schedule(p, 27) == 0x00000180
    ensures Schedule(p, 28) == 0x2C4C700C && Schedule(p, 29) == 0x000000F0 && Schedule(p, 30) == 0x93AFB507
    ensures Schedule(p, 31) == 0x5898E048
  {
    FirstWords(p);
    Word(p, 16, 0x00000000, 0x00000000, 0x00000000, 0x61626380, 0xC2C4C700);
    Word(p, 17, 0x00000000, 0x00000000, 0x00000000, 0x00000000, 0x00000000);
    Word(p, 18, 0x00000018, 0x00000000, 0x00000000, 0x00000000, 0x00000030);
    Word(p, 19, 0xC2C4C700, 0x00000000, 0x00000000, 0x00000000, 0x85898E01);
    Word(p, 20, 0x00000000, 0x00000000, 0x00000000, 0x00000000, 0x00000000);
    Word(p, 21, 0x00000030, 0x00000000, 0x00000000, 0x00000000, 0x00000060);
    Word(p, 22, 0x85898E01, 0x00000000, 0x00000000, 0x00000000, 0x0B131C03);
    Word(p, 23, 0x00000000, 0x00000018, 0x00000000, 0x00000000, 0x00000030);
    Word(p, 24, 0x00000060, 0xC2C4C700, 0x00000000, 0x00000000, 0x85898EC1);
    Word(p, 25, 0x0B131C03, 0x00000000, 0x00000000, 0x00000000, 0x16263806);
    Word(p, 26, 0x00000030, 0x00000030, 0x00000000, 0x00000000, 0x00000000);
    Word(p, 27, 0x85898EC1, 0x85898E01, 0x00000000, 0x00000000, 0x00000180);
    Word(p, 28, 0x16263806, 0x00000000, 0x00000000, 0x00000000, 0x2C4C700C);
    Word(p, 29, 0x00000000, 0x00000060, 0x00000018, 0x00000000, 0x000000F0);
    Word(p, 30, 0x00000180, 0x0B131C03, 0xC2C4C700, 0x00000000, 0x93AFB507);
    Word(p, 31, 0x2C4C700C, 0x00000030, 0x00000000, 0x00000018, 0x5898E048);
  }

  lemma Words32(p: seq<bv8>)
    requires IsAbc(p)
    ensures Schedule(p, 32) == 0x8E9A9202 && Schedule(p, 33) == 0x00000600 && Schedule(p, 34) == 0xB131C0F0
    ensures Schedule(p, 35) == 0x16263BC6 && Schedule(p, 36) == 0x4EBED41E && Schedule(p, 37) == 0x626380A1
    ensures Schedule(p, 38) == 0x16263806 && Schedule(p, 39) == 0x000018C0 && Schedule(p, 40) == 0xD2E138C4
    ensures Schedule(p, 41) == 0x00000F00 && Schedule(p, 42) == 0x3AFB5079 && Schedule(p, 43) == 0x898E04E5
    ensures Schedule(p, 44) == 0xE2BA3C2B && Schedule(p, 45) == 0x000060C0 && Schedule(p, 46) == 0x053A37CD
    ensures Schedule(p, 47) == 0x74458547
  {
    Words16(p);
    hide Schedule;
    Word(p, 32, 0x000000F0, 0x85898EC1, 0x00000030, 0xC2C4C700, 0x8E9A9202);
    Word(p, 33, 0x93AFB507, 0x16263806, 0x85898E01, 0x00000000, 0x00000600);
    Word(p, 34, 0x5898E048, 0x00000000, 0x00000000, 0x00000030, 0xB131C0F0);
    Word(p, 35, 0x8E9A9202, 0x00000180, 0x00000060, 0x85898E01, 0x16263BC6);
    Word(p, 36, 0x00000600, 0x2C4C700C, 0x0B131C03, 0x00000000, 0x4EBED41E);
    Word(p, 37, 0xB131C0F0, 0x000000F0, 0x00000030, 0x00000060, 0x626380A1);
    Word(p, 38, 0x16263BC6, 0x93AFB507, 0x85898EC1, 0x0B131C03, 0x16263806);
    Word(p, 39, 0x4EBED41E, 0x5898E048, 0x16263806, 0x00000030, 0x000018C0);
    Word(p, 40, 0x626380A1, 0x8E9A9202, 0x00000000, 0x85898EC1, 0xD2E138C4);
    Word(p, 41, 0x16263806, 0x00000600, 0x00000180, 0x16263806, 0x00000F00);
    Word(p, 42, 0x000018C0, 0xB131C0F0, 0x2C4C700C, 0x00000000, 0x3AFB5079);
    Word(p, 43, 0xD2E138C4, 0x16263BC6, 0x000000F0, 0x00000180, 0x898E04E5);
    Word(p, 44, 0x00000F00, 0x4EBED41E, 0x93AFB507, 0x2C4C700C, 0xE2BA3C2B);
    Word(p, 45, 0x3AFB5079, 0x626380A1, 0x5898E048, 0x000000F0, 0x000060C0);
    Word(p, 46, 0x898E04E5, 0x16263806, 0x8E9A9202, 0x93AFB507, 0x053A37CD);
    Word(p, 47, 0xE2BA3C2B, 0x000018C0, 0x00000600, 0x5898E048, 0x74458547);
  }

  lemma Words48(p: seq<bv8>)
    requires IsAbc(p)
    ensures Schedule(p, 48) == 0xDA9415ED && Schedule(p, 49) == 0x26380A16 && Schedule(p, 50) == 0x626383A1
    ensures Schedule(p, 51) == 0x4EBF54DE && Schedule(p, 52) == 0x3835B44B && Schedule(p, 53) == 0x0000F600
    ensures Schedule(p, 54) == 0x1E84C7A3 && Schedule(p, 55) == 0x98E04D98 && Schedule(p, 56) == 0x651D16A0
    ensures Schedule(p, 57) == 0x62658CA1 && Schedule(p, 58) == 0x458544D6 && Schedule(p, 59) == 0x44584CB7
    ensures Schedule(p, 60) == 0x7BA06619 && Schedule(p, 61) == 0x6380AEA2 && Schedule(p, 62) == 0x0AE55269
    ensures Schedule(p, 63) == 0x627B49A1
  {
    Words32(p);
    hide Schedule;
    Word(p, 48, 0x000060C0, 0xD2E138C4, 0xB131C0F0, 0x8E9A9202, 0xDA9415ED);
    Word(p, 49, 0x053A37CD, 0x00000F00, 0x16263BC6, 0x00000600, 0x26380A16);
    Word(p, 50, 0x74458547, 0x3AFB5079, 0x4EBED41E, 0xB131C0F0, 0x626383A1);
    Word(p, 51, 0xDA9415ED, 0x898E04E5, 0x626380A1, 0x16263BC6, 0x4EBF54DE);
    Word(p, 52, 0x26380A16, 0xE2BA3C2B, 0x16263806, 0x4EBED41E, 0x3835B44B);
    Word(p, 53, 0x626383A1, 0x000060C0, 0x000018C0, 0x626380A1, 0x0000F600);
    Word(p, 54, 0x4EBF54DE, 0x053A37CD, 0xD2E138C4, 0x16263806, 0x1E84C7A3);
    Word(p, 55, 0x3835B44B, 0x74458547, 0x00000F00, 0x000018C0, 0x98E04D98);
    Word(p, 56, 0x0000F600, 0xDA9415ED, 0x3AFB5079, 0xD2E138C4, 0x651D16A0);
    Word(p, 57, 0x1E84C7A3, 0x26380A16, 0x898E04E5, 0x00000F00, 0x62658CA1);
    Word(p, 58, 0x98E04D98, 0x626383A1, 0xE2BA3C2B, 0x3AFB5079, 0x458544D6);
    Word(p, 59, 0x651D16A0, 0x4EBF54DE, 0x000060C0, 0x898E04E5, 0x44584CB7);
    Word(p, 60, 0x62658CA1, 0x3835B44B, 0x053A37CD, 0xE2BA3C2B, 0x7BA06619);
    Word(p, 61, 0x458544D6, 0x0000F600, 0x74458547, 0x000060C0, 0x6380AEA2);
    Word(p, 62, 0x44584CB7, 0x1E84C7A3, 0xDA9415ED, 0x053A37CD, 0x0AE55269);
    Word(p, 63, 0x7BA06619, 0x98E04D98, 0x26380A16, 0x74458547, 0x627B49A1);
  }

  lemma Words64(p: seq<bv8>)
    requires IsAbc(p)
    ensures Schedule(p, 64) == 0x7CD45C9D && Schedule(p, 65) == 0x000F0000 && Schedule(p, 66) == 0xFB50753A
    ensures Schedule(p, 67) == 0xEC6765E8 && Schedule(p, 68) == 0xBA3C2BE2 && Schedule(p, 69) == 0x0060C000
    ensures Schedule(p, 70) == 0x3A37CD05 && Schedule(p, 71) == 0x458546F4 && Schedule(p, 72) == 0xB8599DD6
    ensures Schedule(p, 73) == 0x380A1A26 && Schedule(p, 74) == 0x01E02203 && Schedule(p, 75) == 0xE7CC3456
    ensures Schedule(p, 76) == 0xE6E60B69 && Schedule(p, 77) == 0x00F60A00 && Schedule(p, 78) == 0x5795EF4F
    ensures Schedule(p, 79) == 0x822E0879
  {
    Words48(p);
    hide Schedule;
    Word(p, 64, 0x6380AEA2, 0x651D16A0, 0x626383A1, 0xDA9415ED, 0x7CD45C9D);
    Word(p, 65, 0x0AE55269, 0x62658CA1, 0x4EBF54DE, 0x26380A16, 0x000F0000);
    Word(p, 66, 0x627B49A1, 0x458544D6, 0x3835B44B, 0x626383A1, 0xFB50753A);
    Word(p, 67, 0x7CD45C9D, 0x44584CB7, 0x0000F600, 0x4EBF54DE, 0xEC6765E8);
    Word(p, 68, 0x000F0000, 0x7BA06619, 0x1E84C7A3, 0x3835B44B, 0xBA3C2BE2);
    Word(p, 69, 0xFB50753A, 0x6380AEA2, 0x98E04D98, 0x0000F600, 0x0060C000);
    Word(p, 70, 0xEC6765E8, 0x0AE55269, 0x651D16A0, 0x1E84C7A3, 0x3A37CD05);
    Word(p, 71, 0xBA3C2BE2, 0x627B49A1, 0x62658CA1, 0x98E04D98, 0x458546F4);
    Word(p, 72, 0x0060C000, 0x7CD45C9D, 0x458544D6, 0x651D16A0, 0xB8599DD6);
    Word(p, 73, 0x3A37CD05, 0x000F0000, 0x44584CB7, 0x62658CA1, 0x380A1A26);
    Word(p, 74, 0x458546F4, 0xFB50753A, 0x7BA06619, 0x458544D6, 0x01E02203);
    Word(p, 75, 0xB8599DD6, 0xEC6765E8, 0x6380AEA2, 0x44584CB7, 0xE7CC3456);
    Word(p, 76, 0x380A1A26, 0xBA3C2BE2, 0x0AE55269, 0x7BA06619, 0xE6E60B69);
    Word(p, 77, 0x01E02203, 0x0060C000, 0x627B49A1, 0x6380AEA2, 0x00F60A00);
    Word(p, 78, 0xE7CC3456, 0x3A37CD05, 0x7CD45C9D, 0x0AE55269, 0x5795EF4F);
    Word(p, 79, 0xE6E60B69, 0x458546F4, 0x000F0000, 0x627B49A1, 0x822E0879);
  }

  // ---------- The rounds ----------

  lemma Next(p: seq<bv8>, i: nat, s: Chain, w: Word, a: Word, c: Word)
    requires |p| == 64 && i < 80 && Rounds(INITIAL, p, i) == s && Schedule(p, i) == w
    requires a == Stirred(s, w, i) && c == Rol(s.b, 30)
    ensures Rounds(INITIAL, p, i + 1) == Chain(a, s.a, c, s.c, s.d)
  {
    hide Rol, Stirred, Schedule;
  }

  lemma Rounds10(p: seq<bv8>)
    requires IsAbc(p)
    ensures Rounds(INITIAL, p, 10) == Chain(0x8351F929, 0x4B6AE328, 0x27A301F5, 0x664F8C30, 0x0FF1F290)
  {
    FirstWords(p);
    hide Schedule;
    Next(p, 0, Chain(0x67452301, 0xEFCDAB89, 0x98BADCFE, 0x10325476, 0xC3D2E1F0), 0x61626380,
         0x0116FC33, 0x7BF36AE2);
    Next(p, 1, Chain(0x0116FC33, 0x67452301, 0x7BF36AE2, 0x98BADCFE, 0x10325476), 0x00000000,
         0x8990536D, 0x59D148C0);
    Next(p, 2, Chain(0x8990536D, 0x0116FC33, 0x59D148C0, 0x7BF36AE2, 0x98BADCFE), 0x00000000,
         0xA1390F08, 0xC045BF0C);
    Next(p, 3, Chain(0xA1390F08, 0x8990536D, 0xC045BF0C, 0x59D148C0, 0x7BF36AE2), 0x00000000,
         0xCDD8E11B, 0x626414DB);
    Next(p, 4, Chain(0xCDD8E11B, 0xA1390F08, 0x626414DB, 0xC045BF0C, 0x59D148C0), 0x00000000,
         0xCFD499DE, 0x284E43C2);
    Next(p, 5, Chain(0xCFD499DE, 0xCDD8E11B, 0x284E43C2, 0x626414DB, 0xC045BF0C), 0x00000000,
         0x3FC7CA40, 0xF3763846);
    Next(p, 6, Chain(0x3FC7CA40, 0xCFD499DE, 0xF3763846, 0x284E43C2, 0x626414DB), 0x00000000,
         0x993E30C1, 0xB3F52677);
    Next(p, 7, Chain(0x993E30C1, 0x3FC7CA40, 0xB3F52677, 0xF3763846, 0x284E43C2), 0x00000000,
         0x9E8C07D4, 0x0FF1F290);
    Next(p, 8, Chain(0x9E8C07D4, 0x993E30C1, 0x0FF1F290, 0xB3F52677, 0xF3763846), 0x00000000,
         0x4B6AE328, 0x664F8C30);
    Next(p, 9, Chain(0x4B6AE328, 0x9E8C07D4, 0x664F8C30, 0x0FF1F290, 0xB3F52677), 0x00000000,
         0x8351F929, 0x27A301F5);
  }

  lemma Rounds20(p: seq<bv8>)
    requires IsAbc(p)
    ensures Rounds(INITIAL, p, 20) == Chain(0xFD9E1D7D, 0xDC64901D, 0x20AA99CA, 0xD3A49608, 0xC82F758B)
  {
    FirstWords(p);
    Words16(p);
    Rounds10(p);
    hide Schedule, Rounds;
    Next(p, 10, Chain(0x8351F929, 0x4B6AE328, 0x27A301F5, 0x664F8C30, 0x0FF1F290), 0x00000000,
         0xFBDA9E89, 0x12DAB8CA);
    Next(p, 11, Chain(0xFBDA9E89, 0x8351F929, 0x12DAB8CA, 0x27A301F5, 0x664F8C30), 0x00000000,
         0x63188FE4, 0x60D47E4A);
    Next(p, 12, Chain(0x63188FE4, 0xFBDA9E89, 0x60D47E4A, 0x12DAB8CA, 0x27A301F5), 0x00000000,
         0x4607B664, 0x7EF6A7A2);
    Next(p, 13, Chain(0x4607B664, 0x63188FE4, 0x7EF6A7A2, 0x60D47E4A, 0x12DAB8CA), 0x00000000,
         0x9128F695, 0x18C623F9);
    Next(p, 14, Chain(0x9128F695, 0x4607B664, 0x18C623F9, 0x7EF6A7A2, 0x60D47E4A), 0x00000000,
         0x196BEE77, 0x1181ED99);
    Next(p, 15, Chain(0x196BEE77, 0x9128F695, 0x1181ED99, 0x18C623F9, 0x7EF6A7A2), 0x00000018,
         0x20BDD62F, 0x644A3DA5);
    Next(p, 16, Chain(0x20BDD62F, 0x196BEE77, 0x644A3DA5, 0x1181ED99, 0x18C623F9), 0xC2C4C700,
         0x4E925823, 0xC65AFB9D);
    Next(p, 17, Chain(0x4E925823, 0x20BDD62F, 0xC65AFB9D, 0x644A3DA5, 0x1181ED99), 0x00000000,
         0x82AA6728, 0xC82F758B);
    Next(p, 18, Chain(0x82AA6728, 0x4E925823, 0xC82F758B, 0xC65AFB9D, 0x644A3DA5), 0x00000030,
         0xDC64901D, 0xD3A49608);
    Next(p, 19, Chain(0xDC64901D, 0x82AA6728, 0xD3A49608, 0xC82F758B, 0xC65AFB9D), 0x85898E01,
         0xFD9E1D7D, 0x20AA99CA);
  }

  lemma Rounds30(p: seq<bv8>)
    requires IsAbc(p)
    ensures Rounds(INITIAL, p, 30) == Chain(0xC5FBAF5D, 0x8370B52E, 0xD2AA1365, 0x6F8D7EF5, 0x12104EE9)
  {
    Words16(p);
    Rounds20(p);
    hide Schedule, Rounds;
    Next(p, 20, Chain(0xFD9E1D7D, 0xDC64901D, 0x20AA99CA, 0xD3A49608, 0xC82F758B), 0x00000000,
         0x1A37B0CA, 0x77192407);
    Next(p, 21, Chain(0x1A37B0CA, 0xFD9E1D7D, 0x77192407, 0x20AA99CA, 0xD3A49608), 0x00000060,
         0x33A23BFC, 0x7F67875F);
    Next(p, 22, Chain(0x33A23BFC, 0x1A37B0CA, 0x7F67875F, 0x77192407, 0x20AA99CA), 0x0B131C03,
         0x21283486, 0x868DEC32);
    Next(p, 23, Chain(0x21283486, 0x33A23BFC, 0x868DEC32, 0x7F67875F, 0x77192407), 0x00000030,
         0xD541F12D, 0x0CE88EFF);
    Next(p, 24, Chain(0xD541F12D, 0x21283486, 0x0CE88EFF, 0x868DEC32, 0x7F67875F), 0x85898EC1,
         0xC7567DC6, 0x884A0D21);
    Next(p, 25, Chain(0xC7567DC6, 0xD541F12D, 0x884A0D21, 0x0CE88EFF, 0x868DEC32), 0x16263806,
         0x48413BA4, 0x75507C4B);
    Next(p, 26, Chain(0x48413BA4, 0xC7567DC6, 0x75507C4B, 0x884A0D21, 0x0CE88EFF), 0x00000000,
         0xBE35FBD5, 0xB1D59F71);
    Next(p, 27, Chain(0xBE35FBD5, 0x48413BA4, 0xB1D59F71, 0x75507C4B, 0x884A0D21), 0x00000180,
         0x4AA84D97, 0x12104EE9);
    Next(p, 28, Chain(0x4AA84D97, 0xBE35FBD5, 0x12104EE9, 0xB1D59F71, 0x75507C4B), 0x2C4C700C,
         0x8370B52E, 0x6F8D7EF5);
    Next(p, 29, Chain(0x8370B52E, 0x4AA84D97, 0x6F8D7EF5, 0x12104EE9, 0xB1D59F71), 0x000000F0,
         0xC5FBAF5D, 0xD2AA1365);
  }

  lemma Rounds40(p: seq<bv8>)
    requires IsAbc(p)
    ensures Rounds(INITIAL, p, 40) == Chain(0x32DE1CBA, 0x4C986405, 0xF718E5CF, 0x03D447F6, 0xF72EEC32)
  {
    Words16(p);
    Words32(p);
    Rounds30(p);
    hide Schedule, Rounds;
    Next(p, 30, Chain(0xC5FBAF5D, 0x8370B52E, 0xD2AA1365, 0x6F8D7EF5, 0x12104EE9), 0x93AFB507,
         0x1267B407, 0xA0DC2D4B);
    Next(p, 31, Chain(0x1267B407, 0xC5FBAF5D, 0xA0DC2D4B, 0xD2AA1365, 0x6F8D7EF5), 0x5898E048,
         0x3B845D33, 0x717EEBD7);
    Next(p, 32, Chain(0x3B845D33, 0x1267B407, 0x717EEBD7, 0xA0DC2D4B, 0xD2AA1365), 0x8E9A9202,
         0x046FAA0A, 0xC499ED01);
    Next(p, 33, Chain(0x046FAA0A, 0x3B845D33, 0xC499ED01, 0x717EEBD7, 0xA0DC2D4B), 0x00000600,
         0x2C0EBC11, 0xCEE1174C);
    Next(p, 34, Chain(0x2C0EBC11, 0x046FAA0A, 0xCEE1174C, 0xC499ED01, 0x717EEBD7), 0xB131C0F0,
         0x21796AD4, 0x811BEA82);
    Next(p, 35, Chain(0x21796AD4, 0x2C0EBC11, 0x811BEA82, 0xCEE1174C, 0xC499ED01), 0x16263BC6,
         0xDCBBB0CB, 0x4B03AF04);
    Next(p, 36, Chain(0xDCBBB0CB, 0x21796AD4, 0x4B03AF04, 0x811BEA82, 0xCEE1174C), 0x4EBED41E,
         0x0F511FD8, 0x085E5AB5);
    Next(p, 37, Chain(0x0F511FD8, 0xDCBBB0CB, 0x085E5AB5, 0x4B03AF04, 0x811BEA82), 0x626380A1,
         0xDC63973F, 0xF72EEC32);
    Next(p, 38, Chain(0xDC63973F, 0x0F511FD8, 0xF72EEC32, 0x085E5AB5, 0x4B03AF04), 0x16263806,
         0x4C986405, 0x03D447F6);
    Next(p, 39, Chain(0x4C986405, 0xDC63973F, 0x03D447F6, 0xF72EEC32, 0x085E5AB5), 0x000018C0,
         0x32DE1CBA, 0xF718E5CF);
  }

  lemma Rounds50(p: seq<bv8>)
    requires IsAbc(p)
    ensures Rounds(INITIAL, p, 50) == Chain(0x120731C5, 0xBAF39337, 0xAFAB40B2, 0x2806E11B, 0x8714787C)
  {
    Words32(p);
    Words48(p);
    Rounds40(p);
    hide Schedule, Rounds;
    Next(p, 40, Chain(0x32DE1CBA, 0x4C986405, 0xF718E5CF, 0x03D447F6, 0xF72EEC32), 0xD2E138C4,
         0xFC87DEDF, 0x53261901);
    Next(p, 41, Chain(0xFC87DEDF, 0x32DE1CBA, 0x53261901, 0xF718E5CF, 0x03D447F6), 0x00000F00,
         0x970A0D5C, 0x8CB7872E);
    Next(p, 42, Chain(0x970A0D5C, 0xFC87DEDF, 0x8CB7872E, 0x53261901, 0xF718E5CF), 0x3AFB5079,
         0x7F193DC5, 0xFF21F7B7);
    Next(p, 43, Chain(0x7F193DC5, 0x970A0D5C, 0xFF21F7B7, 0x8CB7872E, 0x53261901), 0x898E04E5,
         0xEE1B1AAF, 0x25C28357);
    Next(p, 44, Chain(0xEE1B1AAF, 0x7F193DC5, 0x25C28357, 0xFF21F7B7, 0x8CB7872E), 0xE2BA3C2B,
         0x40F28E09, 0x5FC64F71);
    Next(p, 45, Chain(0x40F28E09, 0xEE1B1AAF, 0x5FC64F71, 0x25C28357, 0xFF21F7B7), 0x000060C0,
         0x1C51E1F2, 0xFB86C6AB);
    Next(p, 46, Chain(0x1C51E1F2, 0x40F28E09, 0xFB86C6AB, 0x5FC64F71, 0x25C28357), 0x053A37CD,
         0xA01B846C, 0x503CA382);
    Next(p, 47, Chain(0xA01B846C, 0x1C51E1F2, 0x503CA382, 0xFB86C6AB, 0x5FC64F71), 0x74458547,
         0xBEAD02CA, 0x8714787C);
    Next(p, 48, Chain(0xBEAD02CA, 0xA01B846C, 0x8714787C, 0x503CA382, 0xFB86C6AB), 0xDA9415ED,
         0xBAF39337, 0x2806E11B);
    Next(p, 49, Chain(0xBAF39337, 0xBEAD02CA, 0x2806E11B, 0x8714787C, 0x503CA382), 0x26380A16,
         0x120731C5, 0xAFAB40B2);
  }

  lemma Rounds60(p: seq<bv8>)
    requires IsAbc(p)
    ensures Rounds(INITIAL, p, 60) == Chain(0x3F52DE5A, 0x09D785FD, 0x3498BFD4, 0xF211824F, 0xD79915AB)
  {
    Words48(p);
    Rounds50(p);
    hide Schedule, Rounds;
    Next(p, 50, Chain(0x120731C5, 0xBAF39337, 0xAFAB40B2, 0x2806E11B, 0x8714787C), 0x626383A1,
         0x641DB2CE, 0xEEBCE4CD);
    Next(p, 51, Chain(0x641DB2CE, 0x120731C5, 0xEEBCE4CD, 0xAFAB40B2, 0x2806E11B), 0x4EBF54DE,
         0x3847AD66, 0x4481CC71);
    Next(p, 52, Chain(0x3847AD66, 0x641DB2CE, 0x4481CC71, 0xEEBCE4CD, 0xAFAB40B2), 0x3835B44B,
         0xE490436D, 0x99076CB3);
    Next(p, 53, Chain(0xE490436D, 0x3847AD66, 0x99076CB3, 0x4481CC71, 0xEEBCE4CD), 0x0000F600,
         0x27E9F1D8, 0x8E11EB59);
    Next(p, 54, Chain(0x27E9F1D8, 0xE490436D, 0x8E11EB59, 0x99076CB3, 0x4481CC71), 0x1E84C7A3,
         0x7B71F76D, 0x792410DB);
    Next(p, 55, Chain(0x7B71F76D, 0x27E9F1D8, 0x792410DB, 0x8E11EB59, 0x99076CB3), 0x98E04D98,
         0x5E6456AF, 0x09FA7C76);
    Next(p, 56, Chain(0x5E6456AF, 0x7B71F76D, 0x09FA7C76, 0x792410DB, 0x8E11EB59), 0x651D16A0,
         0xC846093F, 0x5EDC7DDB);
    Next(p, 57, Chain(0xC846093F, 0x5E6456AF, 0x5EDC7DDB, 0x09FA7C76, 0x792410DB), 0x62658CA1,
         0xD262FF50, 0xD79915AB);
    Next(p, 58, Chain(0xD262FF50, 0xC846093F, 0xD79915AB, 0x5EDC7DDB, 0x09FA7C76), 0x458544D6,
         0x09D785FD, 0xF211824F);
    Next(p, 59, Chain(0x09D785FD, 0xD262FF50, 0xF211824F, 0xD79915AB, 0x5EDC7DDB), 0x44584CB7,
         0x3F52DE5A, 0x3498BFD4);
  }

  lemma Rounds70(p: seq<bv8>)
    requires IsAbc(p)
    ensures Rounds(INITIAL, p, 70) == Chain(0x3F2588C2, 0x497093C0, 0xDE37534A, 0x030F7CAD, 0x4405957E)
  {
    Words48(p);
    Words64(p);
    Rounds60(p);
    hide Schedule, Rounds;
    Next(p, 60, Chain(0x3F52DE5A, 0x09D785FD, 0x3498BFD4, 0xF211824F, 0xD79915AB), 0x7BA06619,
         0xD756C147, 0x4275E17F);
    Next(p, 61, Chain(0xD756C147, 0x3F52DE5A, 0x4275E17F, 0x3498BFD4, 0xF211824F), 0x6380AEA2,
         0x548C9CB2, 0x8FD4B796);
    Next(p, 62, Chain(0x548C9CB2, 0xD756C147, 0x8FD4B796, 0x4275E17F, 0x3498BFD4), 0x0AE55269,
         0xB66C020B, 0xF5D5B051);
    Next(p, 63, Chain(0xB66C020B, 0x548C9CB2, 0xF5D5B051, 0x8FD4B796, 0x4275E17F), 0x627B49A1,
         0x6B61C9E1, 0x9523272C);
    Next(p, 64, Chain(0x6B61C9E1, 0xB66C020B, 0x9523272C, 0xF5D5B051, 0x8FD4B796), 0x7CD45C9D,
         0x19DFA7AC, 0xED9B0082);
    Next(p, 65, Chain(0x19DFA7AC, 0x6B61C9E1, 0xED9B0082, 0x9523272C, 0xF5D5B051), 0x000F0000,
         0x101655F9, 0x5AD87278);
    Next(p, 66, Chain(0x101655F9, 0x19DFA7AC, 0x5AD87278, 0xED9B0082, 0x9523272C), 0xFB50753A,
         0x0C3DF2B4, 0x0677E9EB);
    Next(p, 67, Chain(0x0C3DF2B4, 0x101655F9, 0x0677E9EB, 0x5AD87278, 0xED9B0082), 0xEC6765E8,
         0x78DD4D2B, 0x4405957E);
    Next(p, 68, Chain(0x78DD4D2B, 0x0C3DF2B4, 0x4405957E, 0x0677E9EB, 0x5AD87278), 0xBA3C2BE2,
         0x497093C0, 0x030F7CAD);
    Next(p, 69, Chain(0x497093C0, 0x78DD4D2B, 0x030F7CAD, 0x4405957E, 0x0677E9EB), 0x0060C000,
         0x3F2588C2, 0xDE37534A);
  }

  lemma Rounds80(p: seq<bv8>)
    requires IsAbc(p)
    ensures Rounds(INITIAL, p, 80) == Chain(0x42541B35, 0x5738D5E1, 0x21834873, 0x681E6DF6, 0xD8FDF6AD)
  {
    Words64(p);
    Rounds70(p);
    hide Schedule, Rounds;
    Next(p, 70, Chain(0x3F2588C2, 0x497093C0, 0xDE37534A, 0x030F7CAD, 0x4405957E), 0x3A37CD05,
         0xC199F8C7, 0x125C24F0);
    Next(p, 71, Chain(0xC199F8C7, 0x3F2588C2, 0x125C24F0, 0xDE37534A, 0x030F7CAD), 0x458546F4,
         0x39859DE7, 0x8FC96230);
    Next(p, 72, Chain(0x39859DE7, 0xC199F8C7, 0x8FC96230, 0x125C24F0, 0xDE37534A), 0xB8599DD6,
         0xEDB42DE4, 0xF0667E31);
    Next(p, 73, Chain(0xEDB42DE4, 0x39859DE7, 0xF0667E31, 0x8FC96230, 0x125C24F0), 0x380A1A26,
         0x11793F6F, 0xCE616779);
    Next(p, 74, Chain(0x11793F6F, 0xEDB42DE4, 0xCE616779, 0xF0667E31, 0x8FC96230), 0x01E02203,
         0x5EE76897, 0x3B6D0B79);
    Next(p, 75, Chain(0x5EE76897, 0x11793F6F, 0x3B6D0B79, 0xCE616779, 0xF0667E31), 0xE7CC3456,
         0x63F7DAB7, 0xC45E4FDB);
    Next(p, 76, Chain(0x63F7DAB7, 0x5EE76897, 0xC45E4FDB, 0x3B6D0B79, 0xCE616779), 0xE6E60B69,
         0xA079B7D9, 0xD7B9DA25);
    Next(p, 77, Chain(0xA079B7D9, 0x63F7DAB7, 0xD7B9DA25, 0xC45E4FDB, 0x3B6D0B79), 0x00F60A00,
         0x860D21CC, 0xD8FDF6AD);
    Next(p, 78, Chain(0x860D21CC, 0xA079B7D9, 0xD8FDF6AD, 0xD7B9DA25, 0xC45E4FDB), 0x5795EF4F,
         0x5738D5E1, 0x681E6DF6);
    Next(p, 79, Chain(0x5738D5E1, 0x860D21CC, 0x681E6DF6, 0xD8FDF6AD, 0xD7B9DA25), 0x822E0879,
         0x42541B35, 0x21834873);
  }

  lemma AbcBlock(p: seq<bv8>)
    requires IsAbc(p)
    ensures Compress(INITIAL, p) == Chain(0xA9993E36, 0x4706816A, 0xBA3E2571, 0x7850C26C, 0x9CD0D89D)
  {
    Rounds80(p);
    hide Rounds;
  }

  // ---------- The digest ----------

  lemma SmallOctets()
    ensures Low8(0) == 0 && Low8(24) == 0x18
  {
  }

  lemma AbcLength()
    ensures Length64(24) == [0, 0, 0, 0, 0, 0, 0, 0x18]
  {
    SmallOctets();
    hide Low8;
  }

  lemma AbcPadded()
    ensures IsAbc(Padded(ABC))
  {
    AbcLength();
    hide Length64;
    var p := Padded(ABC);
    PaddedIs(ABC);
    assert |p| == 64 && p[..3] == ABC && p[56..] == Length64(24);
    Ends(p);
  }

  lemma Ends(p: seq<bv8>)
    requires |p| == 64 && p[..3] == ABC && p[3] == 0x80 && p[56..] == [0, 0, 0, 0, 0, 0, 0, 0x18]
    requires forall k: nat :: 3 < k < 56 ==> p[k] == 0
    ensures IsAbc(p)
  {
    assert p[0] == p[..3][0] && p[1] == p[..3][1] && p[2] == p[..3][2];
    forall k: nat | 56 <= k < 64 ensures p[k] == if k == 63 then 0x18 else 0 {
      assert p[k] == p[56..][k - 56];
    }
  }

  /** The digest of "abc", as FIPS 180-4 gives it. */
  lemma AbcDigest()
    ensures Digest(ABC) == [0xA9, 0x99, 0x3E, 0x36, 0x47, 0x06, 0x81, 0x6A, 0xBA, 0x3E,
                            0x25, 0x71, 0x78, 0x50, 0xC2, 0x6C, 0x9C, 0xD0, 0xD8, 0x9D]
  {
    hide IsAbc, Compress, Padded;
    var p := Padded(ABC);
    AbcPadded();
    PaddedIs(ABC);
    AbcBlock(p);
    assert p[0..64] == p;
    assert Chained(p, 1) == Compress(Chained(p, 0), p);
  }
}
