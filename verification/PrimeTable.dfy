/** The numbers behind the constants of FIPS 180-4, sections 4.2.3 and 5.3.4: the first eighty
    primes. */
module PrimeTable {
  import opened Bytes
  import opened Fips180

  /** The first eighty prime numbers. */
  function Prime(t: nat): nat
    requires t < ROUNDS
  {
    if t < 8 then [2, 3, 5, 7, 11, 13, 17, 19][t]
    else if t < 16 then [23, 29, 31, 37, 41, 43, 47, 53][t - 8]
    else if t < 24 then [59, 61, 67, 71, 73, 79, 83, 89][t - 16]
    else if t < 32 then [97, 101, 103, 107, 109, 113, 127, 131][t - 24]
    else if t < 40 then [137, 139, 149, 151, 157, 163, 167, 173][t - 32]
    else if t < 48 then [179, 181, 191, 193, 197, 199, 211, 223][t - 40]
    else if t < 56 then [227, 229, 233, 239, 241, 251, 257, 263][t - 48]
    else if t < 64 then [269, 271, 277, 281, 283, 293, 307, 311][t - 56]
    else if t < 72 then [313, 317, 331, 337, 347, 349, 353, 359][t - 64]
    else [367, 373, 379, 383, 389, 397, 401, 409][t - 72]
  }

  predicate IsPrime(n: nat) {
    n >= 2 && forall d :: 2 <= d < n ==> n % d != 0
  }

  /** A number below 23 * 23 is prime exactly if it passes this test. */
  predicate PassesSieve(n: nat) {
    if n < 23 then n in {2, 3, 5, 7, 11, 13, 17, 19}
    else
      && n % 2 != 0 && n % 3 != 0 && n % 5 != 0 && n % 7 != 0
      && n % 11 != 0 && n % 13 != 0 && n % 17 != 0 && n % 19 != 0
  }

  lemma SieveIsExact(n: nat)
    requires n < 529
    ensures IsPrime(n) <==> PassesSieve(n)
  {
    hide PassesSieve;
    if n < 23 {
      SmallPrimes(n);
    } else if IsPrime(n) {
      PrimePasses(n);
    } else {
      var d :| 2 <= d < n && n % d == 0;
      var e := n / d;
      assert n == d * e;
      OneIsSmall(n, d, e);
      if d <= 22 {
        SmallFactor(n, d, e);
      } else {
        SmallFactor(n, e, d);
      }
    }
  }

  lemma PrimePasses(n: nat)
    requires IsPrime(n) && n >= 23
    ensures PassesSieve(n)
  {
  }

  lemma OneIsSmall(n: nat, d: nat, e: nat)
    requires n == d * e && 23 <= n < 529 && d < n
    ensures e >= 2 && (d <= 22 || e <= 22)
  {
    if d >= 23 { ProductGrows(d - 23, e); }
  }

  lemma ProductGrows(k: nat, e: nat)
    ensures (23 + k) * e >= 23 * e
  {
    assert (23 + k) * e == 23 * e + k * e;
  }

  lemma SmallPrimes(n: nat)
    requires n < 23
    ensures IsPrime(n) <==> n in {2, 3, 5, 7, 11, 13, 17, 19}
    ensures PassesSieve(n) <==> n in {2, 3, 5, 7, 11, 13, 17, 19}
  {
    if 2 < n && n % 2 == 0 {
    } else if 3 < n && n % 3 == 0 {
    } else if 5 < n && n % 5 == 0 {
    }
  }

  lemma SmallFactor(n: nat, m: nat, k: nat)
    requires 2 <= m <= 22 && n == m * k && n >= 23
    ensures !PassesSieve(n)
  {
    if m % 2 == 0 { Factor(n, 2, m / 2, k); }
    else if m % 3 == 0 { Factor(n, 3, m / 3, k); }
    else if m % 5 == 0 { Factor(n, 5, m / 5, k); }
    else if m % 7 == 0 { Factor(n, 7, m / 7, k); }
    else { Factor(n, m, 1, k); }
  }

  lemma Factor(n: nat, p: nat, j: nat, k: nat)
    requires n == p * j * k && n >= 23 && p in {2, 3, 5, 7, 11, 13, 17, 19}
    ensures !PassesSieve(n)
  {
    var q := j * k;
    assert n == p * q;
    RemainderUnique(n, p, q, 0);
  }

  /** Among the numbers from n up to end exactly the entries from t up to last pass. */
  predicate Scan(n: nat, t: nat, end: nat, last: nat)
    decreases end - n
  {
    if n >= end then n == end && t == last
    else if t < ROUNDS && n == Prime(t) then PassesSieve(n) && Scan(n + 1, t + 1, end, last)
    else !PassesSieve(n) && Scan(n + 1, t, end, last)
  }

  lemma {:induction false} Join(n: nat, t: nat, mid: nat, u: nat, end: nat, last: nat)
    requires Scan(n, t, mid, u) && Scan(mid, u, end, last)
    ensures Scan(n, t, end, last)
    decreases mid - n
  {
    hide PassesSieve, Prime;
    if n < mid && n < end {
      if t < ROUNDS && n == Prime(t) { Join(n + 1, t + 1, mid, u, end, last); }
      else { Join(n + 1, t, mid, u, end, last); }
    }
  }

  // Ten numbers at a time.
  lemma Scan0()
    ensures Scan(0, 0, 10, 4) && Scan(10, 4, 20, 8) && Scan(20, 8, 30, 10)
    ensures Scan(30, 10, 40, 12) && Scan(40, 12, 50, 15)
  {
  }

  lemma Scan50()
    ensures Scan(50, 15, 60, 17) && Scan(60, 17, 70, 19) && Scan(70, 19, 80, 22)
    ensures Scan(80, 22, 90, 24) && Scan(90, 24, 100, 25)
  {
  }

  lemma Scan100()
    ensures Scan(100, 25, 110, 29) && Scan(110, 29, 120, 30) && Scan(120, 30, 130, 31)
    ensures Scan(130, 31, 140, 34) && Scan(140, 34, 150, 35)
  {
  }

  lemma Scan150()
    ensures Scan(150, 35, 160, 37) && Scan(160, 37, 170, 39) && Scan(170, 39, 180, 41)
    ensures Scan(180, 41, 190, 42) && Scan(190, 42, 200, 46)
  {
  }

  lemma Scan200()
    ensures Scan(200, 46, 210, 46) && Scan(210, 46, 220, 47) && Scan(220, 47, 230, 50)
    ensures Scan(230, 50, 240, 52) && Scan(240, 52, 250, 53)
  {
  }

  lemma Scan250()
    ensures Scan(250, 53, 260, 55) && Scan(260, 55, 270, 57) && Scan(270, 57, 280, 59)
    ensures Scan(280, 59, 290, 61) && Scan(290, 61, 300, 62)
  {
  }

  lemma Scan300()
    ensures Scan(300, 62, 310, 63) && Scan(310, 63, 320, 66) && Scan(320, 66, 330, 66)
    ensures Scan(330, 66, 340, 68) && Scan(340, 68, 350, 70)
  {
  }

  lemma Scan350()
    ensures Scan(350, 70, 360, 72) && Scan(360, 72, 370, 73) && Scan(370, 73, 380, 75)
    ensures Scan(380, 75, 390, 77) && Scan(390, 77, 400, 78)
  {
  }

  lemma Scan400()
    ensures Scan(400, 78, 410, 80)
  {
  }

  lemma ScanAll()
    ensures Scan(0, 0, 410, 80)
  {
    hide Scan;
    Scan0();
    Join(0, 0, 10, 4, 20, 8);
    Join(0, 0, 20, 8, 30, 10);
    Join(0, 0, 30, 10, 40, 12);
    Join(0, 0, 40, 12, 50, 15);
    Scan50();
    Join(0, 0, 50, 15, 60, 17);
    Join(0, 0, 60, 17, 70, 19);
    Join(0, 0, 70, 19, 80, 22);
    Join(0, 0, 80, 22, 90, 24);
    Join(0, 0, 90, 24, 100, 25);
    Scan100();
    Join(0, 0, 100, 25, 110, 29);
    Join(0, 0, 110, 29, 120, 30);
    Join(0, 0, 120, 30, 130, 31);
    Join(0, 0, 130, 31, 140, 34);
    Join(0, 0, 140, 34, 150, 35);
    Scan150();
    Join(0, 0, 150, 35, 160, 37);
    Join(0, 0, 160, 37, 170, 39);
    Join(0, 0, 170, 39, 180, 41);
    Join(0, 0, 180, 41, 190, 42);
    Join(0, 0, 190, 42, 200, 46);
    Scan200();
    Join(0, 0, 200, 46, 210, 46);
    Join(0, 0, 210, 46, 220, 47);
    Join(0, 0, 220, 47, 230, 50);
    Join(0, 0, 230, 50, 240, 52);
    Join(0, 0, 240, 52, 250, 53);
    Scan250();
    Join(0, 0, 250, 53, 260, 55);
    Join(0, 0, 260, 55, 270, 57);
    Join(0, 0, 270, 57, 280, 59);
    Join(0, 0, 280, 59, 290, 61);
    Join(0, 0, 290, 61, 300, 62);
    Scan300();
    Join(0, 0, 300, 62, 310, 63);
    Join(0, 0, 310, 63, 320, 66);
    Join(0, 0, 320, 66, 330, 66);
    Join(0, 0, 330, 66, 340, 68);
    Join(0, 0, 340, 68, 350, 70);
    Scan350();
    Join(0, 0, 350, 70, 360, 72);
    Join(0, 0, 360, 72, 370, 73);
    Join(0, 0, 370, 73, 380, 75);
    Join(0, 0, 380, 75, 390, 77);
    Join(0, 0, 390, 77, 400, 78);
    Scan400();
    Join(0, 0, 400, 78, 410, 80);
  }

  /** The first number after the entries before t. */
  function Start(t: nat): nat
    requires t <= ROUNDS
  {
    if t == 0 then 0 else Prime(t - 1) + 1
  }

  /** The entry passes, and nothing between it and the one before. */
  predicate IsNext(t: nat)
    requires t < ROUNDS
  {
    PassesSieve(Prime(t)) && forall n :: Start(t) <= n < Prime(t) ==> !PassesSieve(n)
  }

  lemma {:induction false} ScanNext(n: nat, t: nat)
    requires t < ROUNDS && n <= Prime(t) && Scan(n, t, 410, 80)
    ensures PassesSieve(Prime(t)) && Scan(Prime(t) + 1, t + 1, 410, 80)
    ensures forall i :: n <= i < Prime(t) ==> !PassesSieve(i)
    decreases 410 - n
  {
    hide PassesSieve, Prime;
    EntriesAreSmall(t);
    if n < Prime(t) { ScanNext(n + 1, t); }
  }

  lemma {:induction false} ScanFrom(t: nat)
    requires t < ROUNDS
    ensures Scan(Start(t), t, 410, 80) && IsNext(t)
  {
    hide PassesSieve, Prime, Scan;
    EntriesAreSmall(t);
    if t == 0 {
      ScanAll();
    } else {
      EntriesAreSmall(t - 1);
      ScanFrom(t - 1);
      ScanNext(Start(t - 1), t - 1);
    }
    ScanNext(Start(t), t);
  }

  lemma EntriesAreSmall(t: nat)
    requires t < ROUNDS
    ensures 2 <= Prime(t) <= 409
    ensures t > 0 ==> Prime(t - 1) < Prime(t)
  {
  }

  /** The table holds the first eighty primes, in order: each entry is prime, and no number
      below the first or strictly between two neighbours is. */
  lemma FirstEightyPrimes(t: nat, n: nat)
    requires t < ROUNDS
    ensures IsPrime(Prime(t))
    ensures t > 0 ==> Prime(t - 1) < Prime(t)
    ensures n < Prime(t) && (t > 0 ==> Prime(t - 1) < n) ==> !IsPrime(n)
  {
    hide Prime, IsPrime, PassesSieve, Scan;
    ScanFrom(t);
    EntriesAreSmall(t);
    SieveIsExact(Prime(t));
    if n < Prime(t) && (t > 0 ==> Prime(t - 1) < n) {
      assert Start(t) <= n;
      SieveIsExact(n);
    }
  }
}
