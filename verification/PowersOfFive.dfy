/**
 * The normalized powers of five of the fast path, 5^-342 to 5^308 in 128 bits,
 * with the proof that each entry is what it stands for, and a certificate that
 * no 64-bit multiple of it comes too close below a multiple of 2^137.
 */
module PowersOfFive {
  import opened Powers

  const TOP: nat := 0x8000_0000_0000_0000_0000_0000_0000_0000
  const SLOT: nat := 0x200_0000_0000_0000_0000_0000_0000_0000_0000

  /** The binary exponent of 5^q, from a multiplication and a shift. */
  function Log2Five(q: int): int {
    (217706 * q) / 65536 - q
  }

  /** 5^q * 2^(127 - Log2Five(q)), the power scaled to 128 bits, is the fraction Num / Den. */
  function Num(q: int): nat {
    if q >= 0 then Pow(5, q) * TOP else if Log2Five(q) <= 0 then Pow(2, -Log2Five(q)) * TOP else 0
  }

  function Den(q: int): (d: nat)
    ensures d > 0
  {
    if q < 0 then Pow(5, -q) else if Log2Five(q) >= 0 then Pow(2, Log2Five(q)) else 1
  }

  /** A number of exactly 128 bits. */
  predicate Normal(t: nat) {
    0x8000_0000_0000_0000_0000_0000_0000_0000 <= t < 0x1_0000_0000_0000_0000_0000_0000_0000_0000
  }

  predicate IsLog(k: nat, l: nat) {
    65536 * (l + k) <= 217706 * k < 65536 * (l + k + 1)
  }

  /** Neighbouring fractions around t / SLOT: no fraction with a smaller denominator than their sum lies between. */
  predicate Certificate(t: nat, a: nat, above: nat, b: nat, below: nat) {
    && a * below == b * above + 1 && above + below >= 0x1_0000_0000_0000_0000
    && a * 0x200_0000_0000_0000_0000_0000_0000_0000_0000 >= above * t + 0x1_0000_0000_0000_0000
    && b * 0x200_0000_0000_0000_0000_0000_0000_0000_0000 <= below * t
  }

  ghost predicate Isolated(t: nat) {
    exists a: nat, above: nat, b: nat, below: nat :: Certificate(t, a, above, b, below)
  }

  /** An inverse modulo 2^73 up to a small power of two, which no odd number has among the words. */
  predicate Inverts(c: nat, y: nat, h: nat, j: nat) {
    && h * c == y * 0x200_0000_0000_0000_0000 + j && (j == 1 || j == 2 || j == 4)
    && (h % 2 == 1 ==> j == 1 && 0x1_0000_0000_0000_0000 <= c < 0x200_0000_0000_0000_0000)
  }

  ghost predicate Unhit(h: nat) {
    exists c: nat, y: nat, j: nat :: Inverts(c, y, h, j)
  }

  /** An entry is exact for 0 to 27, rounded up for -27 to -1, and rounded down and isolated elsewhere. */
  ghost predicate Good(q: int, t: nat) {
    && Normal(t)
    && if 0 <= q <= 27 then t % 0x2_0000_0000_0000_0000 == 0 && t * Den(q) == Num(q)
       else if -27 <= q < 0 then
         (t - 1) * Den(q) < Num(q) < t * Den(q) && t % 0x1_0000_0000_0000_0000 != 0 && (q >= -4 ==> Unhit(t / 0x1_0000_0000_0000_0000))
       else t * Den(q) <= Num(q) < (t + 1) * Den(q) && Isolated(t)
  }

  /** The powers of five and two that an entry is computed from. */
  ghost predicate Known(k: nat, l: nat, five: nat, two: nat) {
    five == Pow(5, k) && two == Pow(2, l)
  }

  lemma Next(k: nat, l: nat, five: nat, two: nat)
    requires Known(k, l, five, two)
    ensures Known(k + 1, l + 2, 5 * five, 4 * two) && Known(k + 1, l + 3, 5 * five, 8 * two)
  {
    assert Pow(2, l + 3) == 2 * Pow(2, l + 2) && Pow(2, l + 2) == 2 * Pow(2, l + 1);
  }

  lemma NegativeLog(k: nat)
    requires 0 < k <= 342
    ensures Log2Five(0 - k) == -Log2Five(k) - 1
  {
    var q, r := 217706 * k / 65536, 217706 * k % 65536;
    assert 217706 * k == 65536 * q + r;
    assert k == 32768 * (8477 * q - 28160 * k) + 8477 * r / 2;
    assert 217706 * (0 - k) == 65536 * (-q - 1) + (65536 - r);
  }

  lemma Above(k: nat, l: nat, five: nat, two: nat)
    requires Known(k, l, five, two) && IsLog(k, l)
    ensures Num(k) == five * 0x8000_0000_0000_0000_0000_0000_0000_0000 && Den(k) == two
  {
    assert Log2Five(k) == l;
    hide Pow;
  }

  lemma Below(k: nat, l: nat, five: nat, two: nat)
    requires 0 < k <= 342 && Known(k, l, five, two) && IsLog(k, l)
    ensures Num(0 - k) == 2 * two * 0x8000_0000_0000_0000_0000_0000_0000_0000 && Den(0 - k) == five
  {
    NegativeLog(k);
    assert Log2Five(k) == l && Pow(2, l + 1) == 2 * Pow(2, l);
    hide Pow;
  }

  /** The entry of 5^k up to 27: one word, exactly. */
  function Exact(k: nat, l: nat, t: nat, ghost five: nat, ghost two: nat): (r: nat)
    requires k <= 27 && Known(k, l, five, two) && IsLog(k, l)
    requires t % 0x2_0000_0000_0000_0000 == 0
    requires t * two == five * 0x8000_0000_0000_0000_0000_0000_0000_0000
    requires Normal(t)
    ensures Good(k, r)
  {
    hide Pow, Num, Den;
    Above(k, l, five, two);
    t
  }

  /** The entry of 5^-k up to 4: rounded up, and with an upper word that hits no tie by itself. */
  function Tied(k: nat, l: nat, t: nat, hi: nat, lo: nat, c: nat, y: nat, j: nat, ghost five: nat, ghost two: nat): (r: nat)
    requires 0 < k <= 4 && t == hi * 0x1_0000_0000_0000_0000 + lo && 0 < lo < 0x1_0000_0000_0000_0000 && Inverts(c, y, hi, j)
    requires Known(k, l, five, two) && IsLog(k, l)
    requires (t - 1) * five < 2 * two * 0x8000_0000_0000_0000_0000_0000_0000_0000 < t * five
    requires Normal(t)
    ensures Good(0 - k, r)
  {
    hide Pow, Num, Den;
    Below(k, l, five, two);
    assert t / 0x1_0000_0000_0000_0000 == hi;
    t
  }

  /** The entry of 5^-k from 5 to 27: rounded up. */
  function Upper(k: nat, l: nat, t: nat, ghost five: nat, ghost two: nat): (r: nat)
    requires 4 < k <= 27 && t % 0x1_0000_0000_0000_0000 != 0
    requires Known(k, l, five, two) && IsLog(k, l)
    requires (t - 1) * five < 2 * two * 0x8000_0000_0000_0000_0000_0000_0000_0000 < t * five
    requires Normal(t)
    ensures Good(0 - k, r)
  {
    hide Pow, Num, Den;
    Below(k, l, five, two);
    t
  }

  /** The entry of 5^k from 28 on: rounded down. */
  function Lower(k: nat, l: nat, t: nat, a: nat, above: nat, b: nat, below: nat, ghost five: nat, ghost two: nat): (r: nat)
    requires k >= 28 && Known(k, l, five, two) && IsLog(k, l) && Certificate(t, a, above, b, below)
    requires t * two <= five * 0x8000_0000_0000_0000_0000_0000_0000_0000 < (t + 1) * two
    requires Normal(t)
    ensures Good(k, r)
  {
    hide Pow, Num, Den;
    Above(k, l, five, two);
    t
  }

  /** The entry of 5^-k from 28 on: rounded down. */
  function Inverse(k: nat, l: nat, t: nat, a: nat, above: nat, b: nat, below: nat, ghost five: nat, ghost two: nat): (r: nat)
    requires 28 <= k <= 342 && Known(k, l, five, two) && IsLog(k, l) && Certificate(t, a, above, b, below)
    requires t * five <= 2 * two * 0x8000_0000_0000_0000_0000_0000_0000_0000 < (t + 1) * five
    requires Normal(t)
    ensures Good(0 - k, r)
  {
    hide Pow, Num, Den;
    Below(k, l, five, two);
    t
  }

  lemma EighthPower()
    ensures Pow(5, 8) == 390625 && Pow(2, 18) == 0x4_0000 && Pow(2, 19) == 0x8_0000
  {
    PowMultiply(5, 4, 2);
    PowMultiply(2, 9, 2);
    assert Pow(5, 4) == 625 && Pow(2, 9) == 512 && Pow(2, 19) == 2 * Pow(2, 18);
  }

  lemma Leap(k: nat, l: nat, five: nat, two: nat)
    requires Known(k, l, five, two)
    ensures Known(k + 8, l + 18, 390625 * five, 0x4_0000 * two) && Known(k + 8, l + 19, 390625 * five, 0x8_0000 * two)
  {
    hide Pow;
    EighthPower();
    PowAdd(5, k, 8);
    PowAdd(2, l, 18);
    PowAdd(2, l, 19);
  }

  /** Five to the powers 0, 8, 16 and so on, their binary exponents, and the powers of two with these. */
  function BaseFive(c: nat): nat {
    if c == 0 then 1
    else if c == 1 then 390625
    else if c == 2 then 152587890625
    else if c == 3 then 59604644775390625
    else if c == 4 then 23283064365386962890625
    else if c == 5 then 9094947017729282379150390625
    else if c == 6 then 3552713678800500929355621337890625
    else if c == 7 then 1387778780781445675529539585113525390625
    else if c == 8 then 542101086242752217003726400434970855712890625
    else if c == 9 then 211758236813575084767080625169910490512847900390625
    else if c == 10 then 82718061255302767487140869206996285356581211090087890625
    else if c == 11 then 32311742677852643549664402033982923967414535582065582275390625
    else if c == 12 then 12621774483536188886587657044524579674771302961744368076324462890625
    else if c == 13 then 4930380657631323783823303533017413935457540219431393779814243316650390625
    else if c == 14 then 1925929944387235853055977942584927318538101648215388195239938795566558837890625
    else if c == 15 then 752316384526264005099991383822237233803945956334136013765601092018187046051025390625
    else if c == 16 then 293873587705571876992184134305561419454666389193021880377187926569604314863681793212890625
    else if c == 17 then 114794370197489014450071927463109929474479058278524172022339033816251685493625700473785400390625
    else if c == 18 then 44841550858394146269559346665277316200968382140048504696226185084473314645947539247572422027587890625
    else if c == 19 then 17516230804060213386546619791123951641003274273456447146963353548622388533573257518582977354526519775390625
    else if c == 20 then 6842277657836020854119773355907793609766904013068924666782559979930620520927053718196475529111921787261962890625
    else if c == 21 then 2672764710092195646140536467151481878815196880105048697961937492160398640987130358670498253559344448149204254150390625
    else if c == 22 then 1044048714879763924273647057481047608912186281291034647641381832875155719135597796355663380296618925058282911777496337890625
    else if c == 23 then 407831529249907782919393381828534222231322766129310409234914778466857702787342889201431007928366767600891762413084506988525390625
    else if c == 24 then 159309191113245227702888039776771180559110455519261878607388585338616290151305816094308987472018268594098344692611135542392730712890625
    else if c == 25 then 62230152778611417071440640537801242405902521687211671331011166147896988340353834411839448231257136169569665895551224821247160434722900390625
    else if c == 26 then 24308653429145084793531500210078610314805672534067059113676236776522261070450716567124784465334818816238150740449697195799672044813632965087890625
    else if c == 27 then 9495567745759798747473242269561957154220965833619944966279779990829008230644811159033118931771413600093027632988162967109246892505325376987457275390625
    else if c == 28 then 3709206150687421385731735261547639513367564778757791002453039058917581340095629358997312082723208437536338919136001159027049567384892725385725498199462890625
    else if c == 29 then 1448908652612273978801459086542046684909204991702262110333218382389680210974855218358325032313753295912632390287500452744941237259723720853799022734165191650390625
    else if c == 30 then 565979942426669522969319955680486986292658199883696136848913430620968832412052819671220715747559881215872027456054864353492670804579578458515243255533277988433837890625
    else if c == 31 then 221085915010417782409890607687690229020569609329568803456606808836315950160958132684070592088890578599950010725021431388083074533038897835357516896692686714231967926025390625
    else if c == 32 then 86361685550944446253863518628003995711160003644362813850237034701685918031624270579715075034722882265605472939461496635969950989468319466936530037770580747746862471103668212890625
    else if c == 33 then 33735033418337674317915436964064060824671876423579224160248841680346061731103230695201201185438625885002137866977147123425762105261062291772082046004133104588618152774870395660400390625
    else if c == 34 then 13177747429038154030435717564087523759637451727960634437597203781385180363712199490312969213061963236328960104287948095088188322367602457723469549220364493979928965927683748304843902587890625
    else if c == 35 then 5147557589468028918138952173471688968608379581234622827186407727103586079575077925903503598852329389191000040737479724643823563424844710048230292664204880460909752315501464181579649448394775390625
    else if c == 36 then 2010764683385948796148028192762378503362648273919774541869690518399838312334014814806056093301691167652734390913078017438993579462829964862589958071955031430042871998242759445929550565779209136962890625
    else if c == 37 then 785454954447636248495323512797804102876034481999911930417847858749936840755474537033615661445973112364349371450421100562106866977667955024449202371857434152360496874313577908566230689757503569126129150390625
    else if c == 38 then 306818341581107909568485747186642227685950969531215597819471819824194078420107241028756117752333247017323973222820742407072994913151544931425469676506810215765819091528741370533683863186524831689894199371337890625
    else if c == 39 then 119850914680120277175189744994782120189824597473131092898231179618825811882854391026857858497005174616142177040164352502762888637949822238838074092385472740533523082628414597864720259057236262378864921629428863525390625
    else if c == 40 then 46816763546921983271558494138586765699150233387941833163371554538603832766739996494866350975392646334430537906314200196391753374199149312046122692338075289270907454151724452290906351194232914991744110011495649814605712890625
    else if c == 41 then 18287798260516399715452536772885455351230559917164778579442013491642122174507811130807168349762752474386928869653984451715528661796542700018016676694560659871448224278017364176135293435247232418650042973240488208830356597900390625
    else 7143671195514218638848647176908380996574437467642491632594536520172703974417113722971550136626075185307394089708587676451378383514274492194537764333812757762284462608600532881302848998143450163535173036422065706574358046054840087890625
  }

  function BaseLog(c: nat): nat {
    if c == 0 then 0 else if c == 1 then 18 else if c == 2 then 37 else if c == 3 then 55 else if c == 4 then 74 else if c == 5 then 92 else if c == 6 then 111 else if c == 7 then 130 else if c == 8 then 148 else if c == 9 then 167 else if c == 10 then 185 else if c == 11 then 204 else if c == 12 then 222 else if c == 13 then 241 else if c == 14 then 260 else if c == 15 then 278 else if c == 16 then 297 else if c == 17 then 315 else if c == 18 then 334 else if c == 19 then 352 else if c == 20 then 371 else if c == 21 then 390 else if c == 22 then 408 else if c == 23 then 427 else if c == 24 then 445 else if c == 25 then 464 else if c == 26 then 482 else if c == 27 then 501 else if c == 28 then 520 else if c == 29 then 538 else if c == 30 then 557 else if c == 31 then 575 else if c == 32 then 594 else if c == 33 then 612 else if c == 34 then 631 else if c == 35 then 650 else if c == 36 then 668 else if c == 37 then 687 else if c == 38 then 705 else if c == 39 then 724 else if c == 40 then 743 else if c == 41 then 761 else 780
  }

  function BaseTwo(c: nat): nat {
    if c == 0 then 0x1
    else if c == 1 then 0x40000
    else if c == 2 then 0x2000000000
    else if c == 3 then 0x80000000000000
    else if c == 4 then 0x4000000000000000000
    else if c == 5 then 0x100000000000000000000000
    else if c == 6 then 0x8000000000000000000000000000
    else if c == 7 then 0x400000000000000000000000000000000
    else if c == 8 then 0x10000000000000000000000000000000000000
    else if c == 9 then 0x800000000000000000000000000000000000000000
    else if c == 10 then 0x20000000000000000000000000000000000000000000000
    else if c == 11 then 0x1000000000000000000000000000000000000000000000000000
    else if c == 12 then 0x40000000000000000000000000000000000000000000000000000000
    else if c == 13 then 0x2000000000000000000000000000000000000000000000000000000000000
    else if c == 14 then 0x100000000000000000000000000000000000000000000000000000000000000000
    else if c == 15 then 0x4000000000000000000000000000000000000000000000000000000000000000000000
    else if c == 16 then 0x200000000000000000000000000000000000000000000000000000000000000000000000000
    else if c == 17 then 0x8000000000000000000000000000000000000000000000000000000000000000000000000000000
    else if c == 18 then 0x400000000000000000000000000000000000000000000000000000000000000000000000000000000000
    else if c == 19 then 0x10000000000000000000000000000000000000000000000000000000000000000000000000000000000000000
    else if c == 20 then 0x800000000000000000000000000000000000000000000000000000000000000000000000000000000000000000000
    else if c == 21 then 0x40000000000000000000000000000000000000000000000000000000000000000000000000000000000000000000000000
    else if c == 22 then 0x1000000000000000000000000000000000000000000000000000000000000000000000000000000000000000000000000000000
    else if c == 23 then 0x80000000000000000000000000000000000000000000000000000000000000000000000000000000000000000000000000000000000
    else if c == 24 then 0x2000000000000000000000000000000000000000000000000000000000000000000000000000000000000000000000000000000000000000
    else if c == 25 then 0x100000000000000000000000000000000000000000000000000000000000000000000000000000000000000000000000000000000000000000000
    else if c == 26 then 0x4000000000000000000000000000000000000000000000000000000000000000000000000000000000000000000000000000000000000000000000000
    else if c == 27 then 0x200000000000000000000000000000000000000000000000000000000000000000000000000000000000000000000000000000000000000000000000000000
    else if c == 28 then 0x10000000000000000000000000000000000000000000000000000000000000000000000000000000000000000000000000000000000000000000000000000000000
    else if c == 29 then 0x400000000000000000000000000000000000000000000000000000000000000000000000000000000000000000000000000000000000000000000000000000000000000
    else if c == 30 then 0x20000000000000000000000000000000000000000000000000000000000000000000000000000000000000000000000000000000000000000000000000000000000000000000
    else if c == 31 then 0x800000000000000000000000000000000000000000000000000000000000000000000000000000000000000000000000000000000000000000000000000000000000000000000000
    else if c == 32 then 0x40000000000000000000000000000000000000000000000000000000000000000000000000000000000000000000000000000000000000000000000000000000000000000000000000000
    else if c == 33 then 0x1000000000000000000000000000000000000000000000000000000000000000000000000000000000000000000000000000000000000000000000000000000000000000000000000000000000
    else if c == 34 then 0x80000000000000000000000000000000000000000000000000000000000000000000000000000000000000000000000000000000000000000000000000000000000000000000000000000000000000
    else if c == 35 then 0x4000000000000000000000000000000000000000000000000000000000000000000000000000000000000000000000000000000000000000000000000000000000000000000000000000000000000000000
    else if c == 36 then 0x100000000000000000000000000000000000000000000000000000000000000000000000000000000000000000000000000000000000000000000000000000000000000000000000000000000000000000000000
    else if c == 37 then 0x8000000000000000000000000000000000000000000000000000000000000000000000000000000000000000000000000000000000000000000000000000000000000000000000000000000000000000000000000000
    else if c == 38 then 0x200000000000000000000000000000000000000000000000000000000000000000000000000000000000000000000000000000000000000000000000000000000000000000000000000000000000000000000000000000000
    else if c == 39 then 0x10000000000000000000000000000000000000000000000000000000000000000000000000000000000000000000000000000000000000000000000000000000000000000000000000000000000000000000000000000000000000
    else if c == 40 then 0x800000000000000000000000000000000000000000000000000000000000000000000000000000000000000000000000000000000000000000000000000000000000000000000000000000000000000000000000000000000000000000
    else if c == 41 then 0x20000000000000000000000000000000000000000000000000000000000000000000000000000000000000000000000000000000000000000000000000000000000000000000000000000000000000000000000000000000000000000000000
    else 0x1000000000000000000000000000000000000000000000000000000000000000000000000000000000000000000000000000000000000000000000000000000000000000000000000000000000000000000000000000000000000000000000000000
  }

  /** They are these powers, from the ones before. */
  lemma {:induction false} Start(c: nat)
    requires c <= 42
    ensures Known(8 * c, BaseLog(c), BaseFive(c), BaseTwo(c))
  {
    if c > 0 {
      Start(c - 1);
      Leap(8 * (c - 1), BaseLog(c - 1), BaseFive(c - 1), BaseTwo(c - 1));
      Following(c);
    }
  }

  lemma Following(c: nat)
    requires 0 < c <= 42
    ensures BaseFive(c) == 390625 * BaseFive(c - 1)
    ensures (BaseLog(c) == BaseLog(c - 1) + 18 && BaseTwo(c) == 0x40000 * BaseTwo(c - 1))
      || (BaseLog(c) == BaseLog(c - 1) + 19 && BaseTwo(c) == 0x80000 * BaseTwo(c - 1))
  {
  }

  function Entry0(k: nat, negative: bool): (t: nat)
    requires 0 <= k <= 7 && (negative ==> k > 0)
    ensures Good(if negative then 0 - k else k, t)
  {
    hide Good, Known, Isolated, Pow;
    Start(0);
    ghost var five, two := 1, 0x1;
    if k == 0 then
      Exact(0, 0, 0x80000000000000000000000000000000, five, two)
    else
      Next(0, 0, five, two);
      ghost var five, two := 5 * five, 4 * two;
    if k == 1 then
      if negative then Tied(1, 2, 0xcccccccccccccccccccccccccccccccd, 0xcccccccccccccccc, 0xcccccccccccccccd,
        0x7afffffffffffffffb, 0x3133333333333333, 4, five, two)
      else Exact(1, 2, 0xa0000000000000000000000000000000, five, two)
    else
      Next(1, 2, five, two);
      ghost var five, two := 5 * five, 4 * two;
    if k == 2 then
      if negative then Tied(2, 4, 0xa3d70a3d70a3d70a3d70a3d70a3d70a4, 0xa3d70a3d70a3d70a, 0x3d70a3d70a3d70a4,
        0xcd555555555555554d, 0x41b4e81b4e81b4e8, 2, five, two)
      else Exact(2, 4, 0xc8000000000000000000000000000000, five, two)
    else
      Next(2, 4, five, two);
      ghost var five, two := 5 * five, 4 * two;
    if k == 3 then
      if negative then Tied(3, 6, 0x83126e978d4fdf3b645a1cac083126ea, 0x83126e978d4fdf3b, 0x645a1cac083126ea,
        0x1bac687d6343eb1a1f3, 0x7159bc5fcbd6b4a4, 1, five, two)
      else Exact(3, 6, 0xfa000000000000000000000000000000, five, two)
    else
      Next(3, 6, five, two);
      ghost var five, two := 5 * five, 8 * two;
    if k == 4 then
      if negative then Tied(4, 9, 0xd1b71758e219652bd3c36113404ea4a9, 0xd1b71758e219652b, 0xd3c36113404ea4a9,
        0x16f6978533007ec3183, 0x967df0917c1f1910, 1, five, two)
      else Exact(4, 9, 0x9c400000000000000000000000000000, five, two)
    else
      Next(4, 9, five, two);
      ghost var five, two := 5 * five, 4 * two;
    if k == 5 then
      if negative then Upper(5, 11, 0xa7c5ac471b4784230fcf80dc33721d54, five, two)
      else Exact(5, 11, 0xc3500000000000000000000000000000, five, two)
    else
      Next(5, 11, five, two);
      ghost var five, two := 5 * five, 4 * two;
    if k == 6 then
      if negative then Upper(6, 13, 0x8637bd05af6c69b5a63f9a49c2c1b110, five, two)
      else Exact(6, 13, 0xf4240000000000000000000000000000, five, two)
    else
      Next(6, 13, five, two);
      ghost var five, two := 5 * five, 8 * two;
      if negative then Upper(7, 16, 0xd6bf94d5e57a42bc3d32907604691b4d, five, two)
      else Exact(7, 16, 0x98968000000000000000000000000000, five, two)
  }

  function Entry8(k: nat, negative: bool): (t: nat)
    requires 8 <= k <= 15
    ensures Good(if negative then 0 - k else k, t)
  {
    hide Good, Known, Isolated, Pow;
    Start(1);
    ghost var five, two := 390625, 0x40000;
    if k == 8 then
      if negative then Upper(8, 18, 0xabcc77118461cefcfdc20d2b36ba7c3e, five, two)
      else Exact(8, 18, 0xbebc2000000000000000000000000000, five, two)
    else
      Next(8, 18, five, two);
      ghost var five, two := 5 * five, 4 * two;
    if k == 9 then
      if negative then Upper(9, 20, 0x89705f4136b4a59731680a88f8953031, five, two)
      else Exact(9, 20, 0xee6b2800000000000000000000000000, five, two)
    else
      Next(9, 20, five, two);
      ghost var five, two := 5 * five, 8 * two;
    if k == 10 then
      if negative then Upper(10, 23, 0xdbe6fecebdedd5beb573440e5a884d1c, five, two)
      else Exact(10, 23, 0x9502f900000000000000000000000000, five, two)
    else
      Next(10, 23, five, two);
      ghost var five, two := 5 * five, 4 * two;
    if k == 11 then
      if negative then Upper(11, 25, 0xafebff0bcb24aafef78f69a51539d749, five, two)
      else Exact(11, 25, 0xba43b740000000000000000000000000, five, two)
    else
      Next(11, 25, five, two);
      ghost var five, two := 5 * five, 4 * two;
    if k == 12 then
      if negative then Upper(12, 27, 0x8cbccc096f5088cbf93f87b7442e45d4, five, two)
      else Exact(12, 27, 0xe8d4a510000000000000000000000000, five, two)
    else
      Next(12, 27, five, two);
      ghost var five, two := 5 * five, 8 * two;
    if k == 13 then
      if negative then Upper(13, 30, 0xe12e13424bb40e132865a5f206b06fba, five, two)
      else Exact(13, 30, 0x9184e72a000000000000000000000000, five, two)
    else
      Next(13, 30, five, two);
      ghost var five, two := 5 * five, 4 * two;
    if k == 14 then
      if negative then Upper(14, 32, 0xb424dc35095cd80f538484c19ef38c95, five, two)
      else Exact(14, 32, 0xb5e620f4800000000000000000000000, five, two)
    else
      Next(14, 32, five, two);
      ghost var five, two := 5 * five, 4 * two;
      if negative then Upper(15, 34, 0x901d7cf73ab0acd90f9d37014bf60a11, five, two)
      else Exact(15, 34, 0xe35fa931a00000000000000000000000, five, two)
  }

  function Entry16(k: nat, negative: bool): (t: nat)
    requires 16 <= k <= 23
    ensures Good(if negative then 0 - k else k, t)
  {
    hide Good, Known, Isolated, Pow;
    Start(2);
    ghost var five, two := 152587890625, 0x2000000000;
    if k == 16 then
      if negative then Upper(16, 37, 0xe69594bec44de15b4c2ebe687989a9b4, five, two)
      else Exact(16, 37, 0x8e1bc9bf040000000000000000000000, five, two)
    else
      Next(16, 37, five, two);
      ghost var five, two := 5 * five, 4 * two;
    if k == 17 then
      if negative then Upper(17, 39, 0xb877aa3236a4b44909befeb9fad487c3, five, two)
      else Exact(17, 39, 0xb1a2bc2ec50000000000000000000000, five, two)
    else
      Next(17, 39, five, two);
      ghost var five, two := 5 * five, 4 * two;
    if k == 18 then
      if negative then Upper(18, 41, 0x9392ee8e921d5d073aff322e62439fd0, five, two)
      else Exact(18, 41, 0xde0b6b3a764000000000000000000000, five, two)
    else
      Next(18, 41, five, two);
      ghost var five, two := 5 * five, 8 * two;
    if k == 19 then
      if negative then Upper(19, 44, 0xec1e4a7db69561a52b31e9e3d06c32e6, five, two)
      else Exact(19, 44, 0x8ac7230489e800000000000000000000, five, two)
    else
      Next(19, 44, five, two);
      ghost var five, two := 5 * five, 4 * two;
    if k == 20 then
      if negative then Upper(20, 46, 0xbce5086492111aea88f4bb1ca6bcf585, five, two)
      else Exact(20, 46, 0xad78ebc5ac6200000000000000000000, five, two)
    else
      Next(20, 46, five, two);
      ghost var five, two := 5 * five, 4 * two;
    if k == 21 then
      if negative then Upper(21, 48, 0x971da05074da7beed3f6fc16ebca5e04, five, two)
      else Exact(21, 48, 0xd8d726b7177a80000000000000000000, five, two)
    else
      Next(21, 48, five, two);
      ghost var five, two := 5 * five, 8 * two;
    if k == 22 then
      if negative then Upper(22, 51, 0xf1c90080baf72cb15324c68b12dd6339, five, two)
      else Exact(22, 51, 0x878678326eac90000000000000000000, five, two)
    else
      Next(22, 51, five, two);
      ghost var five, two := 5 * five, 4 * two;
      if negative then Upper(23, 53, 0xc16d9a0095928a2775b7053c0f178294, five, two)
      else Exact(23, 53, 0xa968163f0a57b4000000000000000000, five, two)
  }

  function Entry24(k: nat, negative: bool): (t: nat)
    requires 24 <= k <= 31
    ensures Good(if negative then 0 - k else k, t)
  {
    hide Good, Known, Isolated, Pow;
    Start(3);
    ghost var five, two := 59604644775390625, 0x80000000000000;
    if k == 24 then
      if negative then Upper(24, 55, 0x9abe14cd44753b52c4926a9672793543, five, two)
      else Exact(24, 55, 0xd3c21bcecceda1000000000000000000, five, two)
    else
      Next(24, 55, five, two);
      ghost var five, two := 5 * five, 8 * two;
    if k == 25 then
      if negative then Upper(25, 58, 0xf79687aed3eec5513a83ddbd83f52205, five, two)
      else Exact(25, 58, 0x84595161401484a00000000000000000, five, two)
    else
      Next(25, 58, five, two);
      ghost var five, two := 5 * five, 4 * two;
    if k == 26 then
      if negative then Upper(26, 60, 0xc612062576589dda95364afe032a819e, five, two)
      else Exact(26, 60, 0xa56fa5b99019a5c80000000000000000, five, two)
    else
      Next(26, 60, five, two);
      ghost var five, two := 5 * five, 4 * two;
    if k == 27 then
      if negative then Upper(27, 62, 0x9e74d1b791e07e48775ea264cf55347e, five, two)
      else Exact(27, 62, 0xcecb8f27f4200f3a0000000000000000, five, two)
    else
      Next(27, 62, five, two);
      ghost var five, two := 5 * five, 8 * two;
    if k == 28 then
      if negative then Inverse(28, 65, 0xfd87b5f28300ca0d8bca9d6e188853fc,
        0x6e403baa978af1, 0xdea662802f2cf581, 0x237f88aad0ea1e, 0x47b020e383f63b0f, five, two)
      else Lower(28, 65, 0x813f3978f89409844000000000000000,
        0x31d99a0cf17b44, 0xc579e9b46a6dc969, 0x2628874c3102af, 0x972920d1cc747d92, five, two)
    else
      Next(28, 65, five, two);
      ghost var five, two := 5 * five, 4 * two;
    if k == 29 then
      if negative then Inverse(29, 67, 0xcad2f7f5359a3b3e096ee45813a04330,
        0x58f3b6774d64df, 0xe08be27597ff8696, 0x1c6606ef0d8818, 0x47b020e383f63b0f, five, two)
      else Lower(29, 67, 0xa18f07d736b90be55000000000000000,
        0x3f155452a9c051, 0xc7eb44899aef81d2, 0x3fdaa81525a68d, 0xca5c9f5ecb713a3b, five, two)
    else
      Next(29, 67, five, two);
      ghost var five, two := 5 * five, 4 * two;
    if k == 30 then
      if negative then Inverse(30, 69, 0xa2425ff75e14fc31a1258379a94d028d,
        0x2a03044e5c3949, 0x8490d96670048769, 0x33de6003861de3, 0xa3ab29f2abf13a3c, five, two)
      else Lower(30, 69, 0xc9f2c9cd04674edea400000000000000,
        0x3ee3ff620ac6c2, 0x9f7257dd0bd8dc93, 0x3fdaa81525a68d, 0xa1e3b2b23c5a94fc, five, two)
    else
      Next(30, 69, five, two);
      ghost var five, two := 5 * five, 4 * two;
      if negative then Inverse(31, 71, 0x81ceb32c4b43fcf480eacf948770ced7,
        0x365b5d0ce5d362, 0xd6666e5fc5fd2487, 0x33de6003861de3, 0xcc95f46f56ed88cb, five, two)
      else Lower(31, 71, 0xfc6f7c40458122964d00000000000000,
        0x1f71ffb1056361, 0x3fc756586b238b6e, 0x7077a4ab560b4f, 0xe41c63dfd7ffd8d3, five, two)
  }

  function Entry32(k: nat, negative: bool): (t: nat)
    requires 32 <= k <= 39
    ensures Good(if negative then 0 - k else k, t)
  {
    hide Good, Known, Isolated, Pow;
    Start(4);
    ghost var five, two := 23283064365386962890625, 0x4000000000000000000;
    if k == 32 then
      if negative then Inverse(32, 74, 0xcfb11ead453994ba67de18eda5814af2,
        0x2cfa7bdcbe1601, 0x6ee164ea0ca46caa, 0x54fafda6bcc104, 0xd17e31678e7556a9, five, two)
      else Lower(32, 74, 0x9dc5ada82b70b59df020000000000000,
        0x2ce6cad67f58ec, 0x91b6bbdc7c9ddd53, 0x436c68c81c3f0d, 0xdacd3b0a5fe0a0ca, five, two)
    else
      Next(32, 74, five, two);
      ghost var five, two := 5 * five, 4 * two;
    if k == 33 then
      if negative then Inverse(33, 76, 0xa6274bbdd0fadd61ecb1ad8aeacdd58e,
        0x11fdcb2518d59a, 0x3770b27506523655, 0x47021e0170eb39, 0xdacfa5ff41612dd3, five, two)
      else Lower(33, 76, 0xc5371912364ce3056c28000000000000,
        0x59dfce335beb83, 0xe953ad93b1bfa5f6, 0x21bf50a73cbc5c, 0x579cf1b73521c8a3, five, two)
    else
      Next(33, 76, five, two);
      ghost var five, two := 5 * five, 4 * two;
    if k == 34 then
      if negative then Inverse(34, 78, 0x84ec3c97da624ab4bd5af13bef0b113e,
        0x4126e126ba5f0a, 0xfaf4b4f90865ca3f, 0x36825b6d47baf, 0xd1f63a80b9aa2b5, five, two)
      else Lower(34, 78, 0xf684df56c3e01bc6c732000000000000,
        0x59dfce335beb83, 0xbaa957a95affb7f8, 0x2a2f24d10beb73, 0x579cf1b73521c8a3, five, two)
    else
      Next(34, 78, five, two);
      ghost var five, two := 5 * five, 8 * two;
    if k == 35 then
      if negative then Inverse(35, 81, 0xd4ad2dbfc3d07787955e4ec64b44e864,
        0x3c4c41d5c641ac, 0x91296ff8959ad92f, 0x522f9db8e0c975, 0xc5db0888c982dadd, five, two)
      else Lower(35, 81, 0x9a130b963a6c115c3c7f400000000000,
        0x1dce69dd72000a, 0x630c65f225ddef55, 0x361b4f299feb77, 0xb3ccdeb930f53a5a, five, two)
    else
      Next(35, 81, five, two);
      ghost var five, two := 5 * five, 4 * two;
    if k == 36 then
      if negative then Inverse(36, 83, 0xaa242499697392d2dde50bd1d5d0b9e9,
        0x13bdd4c1b06583, 0x3b6851d83dd36c2c, 0x5342614995da98, 0xfa8ca118fd6adc8b, five, two)
      else Lower(36, 83, 0xc097ce7bc90715b34b9f100000000000,
        0x316876fae575c3, 0x8359630e90b40d57, 0x49b55c47136130, 0xc3f35d476660495b, five, two)
    else
      Next(36, 83, five, two);
      ghost var five, two := 5 * five, 4 * two;
    if k == 37 then
      if negative then Inverse(37, 85, 0x881cea14545c75757e50d64177da2e54,
        0x13bdd4c1b06583, 0x4a42664e4d484737, 0x3ab5f8ba315312, 0xdcd8782cde812675, five, two)
      else Lower(37, 85, 0xf0bdc21abb48db201e86d40000000000,
        0xc8dc8d75bc52b, 0x1ab2f6bbe46986ee, 0x753e45078fc3d2, 0xf9594abf2f335737, five, two)
    else
      Next(37, 85, five, two);
      ghost var five, two := 5 * five, 8 * two;
    if k == 38 then
      if negative then Inverse(38, 88, 0xd9c7dced53c7225596e7bd358c904a21,
        0x1a4de8932c4b, 0x3dd757c12af5e6, 0x6cd12dcab6780e, 0xffd3e9acd432409f, five, two)
      else Lower(38, 88, 0x96769950b50d88f41314448000000000,
        0x30243e84ed98b5, 0xa3d13adc3711cd1e, 0x28d3e7acfef824, 0x8aedfd5ac0f497f5, five, two)
    else
      Next(38, 88, five, two);
      ghost var five, two := 5 * five, 4 * two;
      if negative then Inverse(39, 90, 0xae397d8aa96c1b77abec975e0a0d081a,
        0x3ef263d28a49cb, 0xb8fbef926dfe8dd1, 0x3ebdc80163f135, 0xb86155370b132712, five, two)
      else Lower(39, 90, 0xbc143fa4e250eb3117d955a000000000,
        0x579a93cfe7d902, 0xee7af36099696c99, 0xa34f9eb3fbe09, 0x1bc932abc030eb31, five, two)
  }

  function Entry40(k: nat, negative: bool): (t: nat)
    requires 40 <= k <= 47
    ensures Good(if negative then 0 - k else k, t)
  {
    hide Good, Known, Isolated, Pow;
    Start(5);
    ghost var five, two := 9094947017729282379150390625, 0x100000000000000000000000;
    if k == 40 then
      if negative then Inverse(40, 92, 0x8b61313bbabce2c62323ac4b3b3da015,
        0x3f26ffa3b0a261, 0xe7fc2c69452471b4, 0x1918b666f4c6e2, 0x5c30aa9b85899389, five, two)
      else Lower(40, 92, 0xeb194f8e1ae525fd5dcfab0800000000,
        0x6ca8f14397c58d, 0xeca3efa33994ee9f, 0x3308e1983eb62d, 0x6f24caaf00c3acc4, five, two)
    else
      Next(40, 92, five, two);
      ghost var five, two := 5 * five, 8 * two;
    if k == 41 then
      if negative then Inverse(41, 95, 0xdf01e85f912e37a36b6c46dec52f6688,
        0x6f6941b0ed144c, 0xffc99802622d1705, 0x7725ecb3a183b, 0x1118cfc09a203b8e, five, two)
      else Lower(41, 95, 0x92efd1b8d0cf37be5aa1cae500000000,
        0x240409cb17a99c, 0x7d7f24f438d141db, 0x2bd4dfa2d39441, 0x98bb09b3f5dc0741, five, two)
    else
      Next(41, 95, five, two);
      ghost var five, two := 5 * five, 4 * two;
    if k == 42 then
      if negative then Inverse(42, 97, 0xb267ed1940f1c61c55f038b237591ed3,
        0x3402df7865b9f3, 0x9543cfb1f1bed5f4, 0x42e79d0ed9ea69, 0xc001d713730f6ad7, five, two)
      else Lower(42, 97, 0xb7abc627050305adf14a3d9e40000000,
        0x4fd8e96deb3ddd, 0xde94f22025576db0, 0x22d3dd300da9da, 0x6115cd2bec862bd5, five, two)
    else
      Next(42, 97, five, two);
      ghost var five, two := 5 * five, 4 * two;
    if k == 43 then
      if negative then Inverse(43, 99, 0x8eb98a7a9a5b04e377f3608e92adb242,
        0x3402df7865b9f3, 0xba94c39e6e2e8b71, 0x2b1f1dc099fcbd, 0x9ab0e326f69fb55a, five, two)
      else Lower(43, 99, 0xe596b7b0c643c7196d9ccd05d0000000,
        0xdcd8ed2eb5f8b, 0x1ec818f28105ab2d, 0x72acc69df8e7b7, 0xffbbcc3cdb17ae04, five, two)
    else
      Next(43, 99, five, two);
      ghost var five, two := 5 * five, 8 * two;
    if k == 44 then
      if negative then Inverse(44, 102, 0xe45c10c42a2b3b058cb89a7db77c506a,
        0x512cb63dcd129d, 0xb5fff7a9b357618b, 0x5b4fc0c49ae057, 0xccba4037b537e3d6, five, two)
      else Lower(44, 102, 0x8f7e32ce7bea5c6fe4820023a2000000,
        0x2f1dcc08ae1fe1, 0xa81dee0c161a46df, 0x1937cdf2c3620b, 0x59fb148424073456, five, two)
    else
      Next(44, 102, five, two);
      ghost var five, two := 5 * five, 4 * two;
    if k == 45 then
      if negative then Inverse(45, 104, 0xb6b00d69bb55c8d13d607b97c5fd0d22,
        0x4f25b422d71cab, 0xddd163709fb5195b, 0x5741bc8eaef473, 0xf48babfea1959ba6, five, two)
      else Lower(45, 104, 0xb35dbf821ae4f38bdda2802c8a800000,
        0x4f78016f58837c, 0xe2d7dec03fb373cb, 0x44850264632491, 0xc396baf045456c61, five, two)
    else
      Next(45, 104, five, two);
      ghost var five, two := 5 * five, 4 * two;
    if k == 46 then
      if negative then Inverse(46, 106, 0x9226712162ab070dcab3961304ca70e8,
        0x4709abb6ff44e3, 0xf8dce19b4549bcd4, 0x22e7183912c82e, 0x7a45d5ff50cacdd3, five, two)
      else Lower(46, 106, 0xe0352f62a19e306ed50b2037ad200000,
        0x13de005bd620df, 0x2d5e5fc00cbd7d8f, 0x683107a7e62c61, 0xedee6ec07c33ced0, five, two)
    else
      Next(46, 106, five, two);
      ghost var five, two := 5 * five, 8 * two;
      if negative then Inverse(47, 109, 0xe9d71b689dde71afaab8f01e6e10b4a6,
        0x62f5bf17db183b, 0xd8acf800b3b37cee, 0x37d826c1b7a6b0, 0x7a45d5ff50cacdd3, five, two)
      else Lower(47, 109, 0x8c213d9da502de454526f422cc340000,
        0x13de005bd620df, 0x4896ff99adfbfc18, 0x39ab64a67f8f69, 0xd2b5cee6daf55047, five, two)
  }

  function Entry48(k: nat, negative: bool): (t: nat)
    requires 48 <= k <= 55
    ensures Good(if negative then 0 - k else k, t)
  {
    hide Good, Known, Isolated, Pow;
    Start(6);
    ghost var five, two := 3552713678800500929355621337890625, 0x8000000000000000000000000000;
    if k == 48 then
      if negative then Inverse(48, 111, 0xbb127c53b17ec1595560c018580d5d52,
        0x5aff9ea80c720c, 0xf90e0a177f7a75c7, 0x28bb615840aa1, 0x6f7acff7b7887ae, five, two)
      else Lower(48, 111, 0xaf298d050e4395d69670b12b7f410000,
        0x13de005bd620df, 0x3a1266148b2ffce0, 0x4d0dbde714fb7b, 0xe13a686bfdc14f7f, five, two)
    else
      Next(48, 111, five, two);
      ghost var five, two := 5 * five, 4 * two;
    if k == 49 then
      if negative then Inverse(49, 113, 0x95a8637627989aaddde7001379a44aa8,
        0x488c8c418b2af3, 0xf83343c28f58a334, 0x5176c2b081542, 0x116b307eb4ad5333, five, two)
      else Lower(49, 113, 0xdaf3f04651d47b4c3c0cdd765f114000,
        0x13de005bd620df, 0x2e751e76d5bffd80, 0x5b59ad49e4b222, 0xd59d20ce4851501f, five, two)
    else
      Next(49, 113, five, two);
      ghost var five, two := 5 * five, 8 * two;
    if k == 50 then
      if negative then Inverse(50, 116, 0xef73d256a5c0f77c963e66858f6d4440,
        0x71c9c7f63ca259, 0xf34da4084c718b9a, 0x675a0271f4112a, 0xdcfcd3cf54dd20cd, five, two)
      else Lower(50, 116, 0x88d8762bf324cd0fa5880a69fb6ac800,
        0x381eb677de603a, 0xd1f841084329d3d3, 0xce76b248e1c19, 0x30478e59d853bba6, five, two)
    else
      Next(50, 116, five, two);
      ghost var five, two := 5 * five, 4 * two;
    if k == 51 then
      if negative then Inverse(51, 118, 0xbf8fdb78849a5f96de98520472bdd033,
        0x2d83e995b1da8a, 0x79a6d2042638c5cd, 0x5cea3cedab7ffb, 0xf857047bf49ae380, five, two)
      else Lower(51, 118, 0xab0e93b6efee00538eea0d047a457a00,
        0x1c0f5b3bef301d, 0x53fce6d01add87ee, 0x4a5994b54a0e6a, 0xde8a76ebd8f3c331, five, two)
    else
      Next(51, 118, five, two);
      ghost var five, two := 5 * five, 4 * two;
    if k == 52 then
      if negative then Inverse(52, 120, 0x993fe2c6d07b7fabe546a8038efe4029,
        0x4c5500a666ecd7, 0xff05a0a2b7fad57e, 0xc0f71a831df6, 0x284b039d414abf3, five, two)
      else Lower(52, 120, 0xd5d238a4abe9806872a4904598d6d880,
        0x67d70bb0d49431, 0xf8a5bf94331b6730, 0x48eb78f5aeb8c, 0xae9bb75870b5711, five, two)
    else
      Next(52, 120, five, two);
      ghost var five, two := 5 * five, 8 * two;
    if k == 53 then
      if negative then Inverse(53, 123, 0xf53304714d9265dfd53dd99f4b3066a8,
        0x49203efa1dd00c, 0x98b1b293a4cc223d, 0x5cea3cedab7ffb, 0xc203fb80d71901bc, five, two)
      else Lower(53, 123, 0x85a36366eb71f04147a6da2b7f864750,
        0x4105d5948faf4b, 0xf91e2ac662e3afdb, 0x5b2657331a66f, 0x15d376eb0e16ae22, five, two)
    else
      Next(53, 123, five, two);
      ghost var five, two := 5 * five, 4 * two;
    if k == 54 then
      if negative then Inverse(54, 125, 0xc428d05aa4751e4caa97e14c3c26b886,
        0x1555b39c39a672, 0x37afb4d3393fa15f, 0x5cea3cedab7ffb, 0xf284fa610cdf422b, five, two)
      else Lower(54, 125, 0xa70c3c40a64e6c51999090b65f67d924,
        0x4a284c29b58b13, 0xe34ab3db54cd01b9, 0x1487417b8928a6, 0x3eeb4fe7e907f20d, five, two)
    else
      Next(54, 125, five, two);
      ghost var five, two := 5 * five, 4 * two;
      if negative then Inverse(55, 127, 0x9ced737bb6c4183d55464dd69685606b,
        0x4184fdba6dee2d, 0xd5c46fdd20a6cc50, 0x2db32d03f54292, 0x951a579a230f71c5, five, two)
      else Lower(55, 127, 0xd0cf4b50cfe20765fff4b4e3f741cf6d,
        0x2a35f673bd0fb3, 0x678024b95086cab3, 0x5d881a2893f552, 0xe556c4892296aecd, five, two)
  }

  function Entry56(k: nat, negative: bool): (t: nat)
    requires 56 <= k <= 63
    ensures Good(if negative then 0 - k else k, t)
  {
    hide Good, Known, Isolated, Pow;
    Start(7);
    ghost var five, two := 1387778780781445675529539585113525390625, 0x400000000000000000000000000000000;
    if k == 56 then
      if negative then Inverse(56, 130, 0xfb158592be068d2eeed6e2f0f0d56712,
        0x4184fdba6dee2d, 0x859ac5ea34683fb2, 0x5639479204cd59, 0xafd2e595c7244b4f, five, two)
      else Lower(56, 130, 0x82818f1281ed449fbff8f10e7a8921a4,
        0x163e80e201c297, 0x57449c658d8740d7, 0x37e03a5563d095, 0xdb362ef81e20b47c, five, two)
    else
      Next(56, 130, five, two);
      ghost var five, two := 5 * five, 4 * two;
    if k == 57 then
      if negative then Inverse(57, 132, 0xc8de047564d20a8bf245825a5a445275,
        0x49cd1b43dd7aa5, 0xbc1d873a8ae0556d, 0x5a5d5656bc9395, 0xe655a6e61d9c610a, five, two)
      else Lower(57, 132, 0xa321f2d7226895c7aff72d52192b6a0d,
        0x482926ce56035d, 0xe27aed0a57d9d46e, 0x1387aecdd964cb, 0x3d4bc245ef219777, five, two)
    else
      Next(57, 132, five, two);
      ghost var five, two := 5 * five, 4 * two;
    if k == 58 then
      if negative then Inverse(58, 134, 0xa0b19d2ab70e6ed65b6aceaeae9d0ec4,
        0x3b0a7c364ac884, 0xbc1d873a8ae0556d, 0x3cd8183b972f53, 0xc1dc4d025f934e96, five, two)
      else Lower(58, 134, 0xcbea6f8ceb02bb399bf4f8a69f764490,
        0x584c4f02fcf2e9, 0xddb3d1681d18204f, 0x3dfb9302bea3a0, 0x9ba0f37ff334d4b9, five, two)
    else
      Next(58, 134, five, two);
      ghost var five, two := 5 * five, 4 * two;
    if k == 59 then
      if negative then Inverse(59, 136, 0x808e17555f3ebf11e2bbd88bbee40bd0,
        0x393ce030fe61b5, 0xe3f671cf63b8b355, 0x18567017d612ee, 0x60ee26812fc9a74b, five, two)
      else Lower(59, 136, 0xfee50b7025c36a0802f236d04753d5b4,
        0x67cb33c3ac9bd1, 0xd07cd839ae511131, 0x4d7a77c36e4c88, 0x9ba0f37ff334d4b9, five, two)
    else
      Next(59, 136, five, two);
      ghost var five, two := 5 * five, 8 * two;
    if k == 60 then
      if negative then Inverse(60, 139, 0xcdb02555653131b63792f412cb06794d,
        0x51935048d474a3, 0xcb0edf325c3178a4, 0x26f0b3595684b0, 0x60ee26812fc9a74b, five, two)
      else Lower(60, 139, 0x9f4f2726179a224501d762422c946590,
        0x410df7e1f5758d, 0xd113ca5c54577154, 0x306c8ada24efd5, 0x9ba0f37ff334d4b9, five, two)
    else
      Next(60, 139, five, two);
      ghost var five, two := 5 * five, 4 * two;
    if k == 61 then
      if negative then Inverse(61, 141, 0xa48ceaaab75a8e2b5fa8c3423c052dd7,
        0x51935048d474a3, 0xfdd296fef33dd6cd, 0x1f26f5e11203c0, 0x60ee26812fc9a74b, five, two)
      else Lower(61, 141, 0xc722f0ef9d80aad6424d3ad2b7b97ef5,
        0x410df7e1f5758d, 0xa7430849dd12c110, 0x2c442f9830ce67, 0x71d0316d7bf02475, five, two)
    else
      Next(61, 141, five, two);
      ghost var five, two := 5 * five, 4 * two;
    if k == 62 then
      if negative then Inverse(62, 143, 0x83a3eeeef9153e891953cf68300424ac,
        0x413400c0601def, 0xfd999e491f2dc23a, 0x260504546b7b9, 0x93df7212707c7c5, five, two)
      else Lower(62, 143, 0xf8ebad2b84e0d58bd2e0898765a7deb2,
        0x5c6281c07f068a, 0xbe06455fc2a92ec1, 0x2c442f9830ce67, 0x5b0cf4579659b6c4, five, two)
    else
      Next(62, 143, five, two);
      ghost var five, two := 5 * five, 8 * two;
      if negative then Inverse(63, 146, 0xd29fe4b18e88640e8eec7f0d19a03aad,
        0x6645b1c5e28335, 0xf89c2c70f0087525, 0x3cd4d3ba45928, 0x93df7212707c7c5, five, two)
      else Lower(63, 146, 0x9b934c3b330c857763cc55f49f88eb2f,
        0xf688a4075a6f, 0x32b5846a2624d4a, 0x4d710ce17c540c, 0xfedc6bd977277097, five, two)
  }

  function Entry64(k: nat, negative: bool): (t: nat)
    requires 64 <= k <= 71
    ensures Good(if negative then 0 - k else k, t)
  {
    hide Good, Known, Isolated, Pow;
    Start(8);
    ghost var five, two := 542101086242752217003726400434970855712890625, 0x10000000000000000000000000000000000000;
    if k == 64 then
      if negative then Inverse(64, 148, 0xa87fea27a539e9a53f2398d747b36224,
        0x412a517f2c417b, 0xc602963e24d01192, 0x308347f9a34d32, 0x9369000b5997adff, five, two)
      else Lower(64, 148, 0xc2781f49ffcfa6d53cbf6b71c76b25fb,
        0xf688a4075a6f, 0x289136bb51b7108, 0x60cd5019db690f, 0xfedc6bd977277097, five, two)
    else
      Next(64, 148, five, two);
      ghost var five, two := 5 * five, 4 * two;
    if k == 65 then
      if negative then Inverse(65, 150, 0x86ccbb52ea94baea98e947129fc2b4e9,
        0x20702d16e3c593, 0x7b35259535ffdb64, 0x404c6b8afe1e7c, 0xf43869e3e7f6f86b, five, two)
      else Lower(65, 150, 0xf316271c7fc3908a8bef464e3945ef7a,
        0x47febbbfa1dc27, 0x97a3a7c9409007a6, 0x6995c405606825, 0xde6354d676a12969, five, two)
    else
      Next(65, 150, five, two);
      ghost var five, two := 5 * five, 8 * two;
    if k == 66 then
      if negative then Inverse(66, 153, 0xd7adf884aa8791775b0ed81dcc6abb0f,
        0x40e05a2dc78b26, 0x9a026efa837fd23d, 0x2cf380376a8a79, 0x6ab5903f4d3b80c9, five, two)
      else Lower(66, 153, 0x97edd871cfda3a5697758bf0e3cbb5ac,
        0xdcccde730a58a, 0x2e8186e7756962b5, 0x462cc6c72bb871, 0xec7d2d4d62db2457, five, two)
    else
      Next(66, 153, five, two);
      ghost var five, two := 5 * five, 4 * two;
    if k == 67 then
      if negative then Inverse(67, 155, 0xac8b2d36eed2dac5e272467e3d222f3f,
        0x37e2da22b23c41, 0xa5d5a6a95110e69a, 0x23f6002c553b94, 0x6ab5903f4d3b80c9, five, two)
      else Lower(67, 155, 0xbde94e8e43d0c8ec3d52eeed1cbea317,
        0x228002c1f99dd9, 0x5d030dceead2c56a, 0x422332abc350af, 0xb24e6b592e1559cf, five, two)
    else
      Next(67, 155, five, two);
      ghost var five, two := 5 * five, 4 * two;
    if k == 68 then
      if negative then Inverse(68, 157, 0x8a08f0f8bf0f156b1b8e9ecb641b58ff,
        0x3ca629ada5ca58, 0xe0f5bd1354e64c6b, 0x198fc54bdf5715, 0x5ed031c9fae1fa0b, five, two)
      else Lower(68, 157, 0xed63a231d4c4fb274ca7aaa863ee4bdd,
        0x3ba8d01d68d97b, 0x80ac567a5a70a42d, 0x422332abc350af, 0x8ea522adbe777b0c, five, two)
    else
      Next(68, 157, five, two);
      ghost var five, two := 5 * five, 8 * two;
    if k == 69 then
      if negative then Inverse(69, 160, 0xdcdb1b2798182244f8e431456cf88e65,
        0x3df377e742d07d, 0x8f9e46057ca398ef, 0x58d08b6cbf2db7, 0xcde514fd21047e62, five, two)
      else Lower(69, 160, 0x945e455f24fb1cf88fe8caa93e74ef6a,
        0x1ea3b4607fbba4, 0x69bba138f5f514b7, 0x456063f2f08c49, 0xef68dad8b3f7d72c, five, two)
    else
      Next(69, 160, five, two);
      ghost var five, two := 5 * five, 4 * two;
    if k == 70 then
      if negative then Inverse(70, 162, 0xb0af48ec79ace8372d835a9df0c6d851,
        0x3f98881351a1b2, 0xb84a018c68c4f2ad, 0x1c8223b18b2e6f, 0x529cacbb1a719252, five, two)
      else Lower(70, 162, 0xb975d6b6ee39e436b3e2fd538e122b44,
        0x264ca1789faa8d, 0x69bba138f5f514b7, 0x4d09510b107b32, 0xd4ac9c1f2790e37b, five, two)
    else
      Next(70, 162, five, two);
      ghost var five, two := 5 * five, 4 * two;
      if negative then Inverse(71, 164, 0x8d590723948a535f579c487e5a38ad0e,
        0x32e06cdc414e28, 0xb84a018c68c4f2ad, 0x35f25a1fabd583, 0xc368d8b01570703d, five, two)
      else Lower(71, 164, 0xe7d34c64a9c85d4460dbbca87196b616,
        0x73e1a36f3be00f, 0xffee4ec570d2af71, 0x1c0386744986, 0x3ddebc3f215869, five, two)
  }

  function Entry72(k: nat, negative: bool): (t: nat)
    requires 72 <= k <= 79
    ensures Good(if negative then 0 - k else k, t)
  {
    hide Good, Known, Isolated, Pow;
    Start(9);
    ghost var five, two := 211758236813575084767080625169910490512847900390625, 0x800000000000000000000000000000000000000000;
    if k == 72 then
      if negative then Inverse(72, 167, 0xe2280b6c20dd523225c6da63c38de1b0,
        0x547901d706379b, 0xbf3d4802b4b02127, 0x578aef1a70bef6, 0xc6308e79009b4fa1, five, two)
      else Lower(72, 167, 0x90e40fbeea1d3a4abc8955e946fe31cd,
        0x48656e29862e5e, 0xffd379533b0db45d, 0xe01c33a24c3, 0x317efcff4de054, five, two)
    else
      Next(72, 167, five, two);
      ghost var five, two := 5 * five, 4 * two;
    if k == 73 then
      if negative then Inverse(73, 169, 0xb4ecd5f01a4aa8281e38aeb6360b1af3,
        0x3eaa85d9c0ed84, 0xb156bb161cd9c433, 0x226730304afe1d, 0x615b759eed52dc32, five, two)
      else Lower(73, 169, 0xb51d13aea4a488dd6babab6398bdbe41,
        0x3bd19b87100a67, 0xa91ae24f636012a1, 0x3c17a45732c236, 0xa9e0de43609793f1, five, two)
    else
      Next(73, 169, five, two);
      ghost var five, two := 5 * five, 4 * two;
    if k == 74 then
      if negative then Inverse(74, 171, 0x90bd77f3483bb9b9b1c6f22b5e6f48c2,
        0x3f681b5c947807, 0xe04b0b11b225fb0f, 0xdc2e013513272, 0x30adbacf76a96e19, five, two)
      else Lower(74, 171, 0xe264589a4dcdab14c696963c7eed2dd1,
        0x2ceeb6d954b5c1, 0x659e2093a177f1d7, 0x694c6400aa2fc6, 0xee239bf31fb7360b, five, two)
    else
      Next(74, 171, five, two);
      ghost var five, two := 5 * five, 8 * two;
    if k == 75 then
      if negative then Inverse(75, 174, 0xe7958cb87392c2c2b60b1d1230b20e04,
        0x632f95286794c9, 0xdb49367c302b0fd2, 0x160499b881ea50, 0x30adbacf76a96e19, five, two)
      else Lower(75, 174, 0x8d7eb76070a08aecfc1e1de5cf543ca2,
        0x10adbf0f6a1147, 0x3c5a16c8964ec341, 0x4553f10fbf292a, 0xfadcf9f17c7aee7d, five, two)
    else
      Next(75, 174, five, two);
      ghost var five, two := 5 * five, 4 * two;
    if k == 76 then
      if negative then Inverse(76, 176, 0xb94470938fa89bcef808e40e8d5b3e69,
        0xb07ad24ad8cd5, 0x1e7b703750b60ce8, 0x581266e207a940, 0xf364a60d514f267d, five, two)
      else Lower(76, 176, 0xb0de65388cc8ada83b25a55f43294bcb,
        0x10adbf0f6a1147, 0x3048123a11d89c34, 0x4e520dcbf9ead1, 0xe2b8f0d4738ea063, five, two)
    else
      Next(76, 176, five, two);
      ghost var five, two := 5 * five, 4 * two;
    if k == 77 then
      if negative then Inverse(77, 178, 0x9436c0760c86e30bf9a0b6720aaf6521,
        0xb07ad24ad8cd5, 0x261a4c4524e39022, 0x420ba6a6271bde, 0xe426edf1a8f42009, five, two)
      else Lower(77, 178, 0xdd15fe86affad91249ef0eb713f39ebe,
        0x17bff336d8ff06, 0x370033cfb447d8eb, 0x6a9ade69b5a1cd, 0xf6e155955adc5688, five, two)
    else
      Next(77, 178, five, two);
      ghost var five, two := 5 * five, 8 * two;
    if k == 78 then
      if negative then Inverse(78, 181, 0xed246723473e3813290123e9aab23b68,
        0x29dc350f690383, 0x5a60be38ea842620, 0x5175ea9b84d735, 0xafe07bfde3538a0b, five, two)
      else Lower(78, 181, 0x8a2dbf142dfcc7ab6e3569326c784337,
        0xbdff99b6c7f83, 0x2c002972f69fe0bc, 0x40f9bac6732d0f, 0xf0c1bcd5aba160d7, five, two)
    else
      Next(78, 181, five, two);
      ghost var five, two := 5 * five, 4 * two;
      if negative then Inverse(79, 183, 0xbdb6b8e905cb600f5400e987bbc1c920,
        0x29dc350f690383, 0x70f8edc725252fa8, 0x38cbe4462211dd, 0x99484c6fa8b28083, five, two)
      else Lower(79, 183, 0xacb92ed9397bf99649c2c37f07965404,
        0x3b5fe0091e7d8f, 0xb000a5cbda7f82f0, 0x548649ef4ca875, 0xfa8de46ec3ffb6bf, five, two)
  }

  function Entry80(k: nat, negative: bool): (t: nat)
    requires 80 <= k <= 87
    ensures Good(if negative then 0 - k else k, t)
  {
    hide Good, Known, Isolated, Pow;
    Start(10);
    ghost var five, two := 82718061255302767487140869206996285356581211090087890625, 0x20000000000000000000000000000000000000000000000;
    if k == 80 then
      if negative then Inverse(80, 185, 0x97c560ba6b0919a5dccd879fc967d41a,
        0x468da3415a4399, 0xee02fec5048e6441, 0x1cb16e31f14016, 0x60cbd58c161fe8af, five, two)
      else Lower(80, 185, 0xd7e77a8f87daf7fbdc33745ec97be906,
        0x1766558b03b40e, 0x377d9c30f57fc39d, 0x56465e4a771f4d, 0xcc981976c8802b3b, five, two)
    else
      Next(80, 185, five, two);
      ghost var five, two := 5 * five, 8 * two;
    if k == 81 then
      if negative then Inverse(81, 188, 0xf2d56790ab41c2a2fae27299423fb9c3,
        0x6be496921058a3, 0xe37c576fea12d813, 0x13d969e3dbe723, 0x29d9da8a2355c99e, five, two)
      else Lower(81, 188, 0x86f0ac99b4e8dafd69a028bb3ded71a3,
        0x3a7fd5db894223, 0xddf670c3d5ff0e74, 0x2fe4b7cf01f263, 0xb5b889bad6e60aff, five, two)
    else
      Next(81, 188, five, two);
      ghost var five, two := 5 * five, 4 * two;
    if k == 82 then
      if negative then Inverse(82, 190, 0xc24452da229b021bfbe85badce996168,
        0x5ec3e924757c69, 0xf9c231f8e7e03b4b, 0x27b2d3c7b7ce46, 0x68a0a2595856780b, five, two)
      else Lower(82, 190, 0xa8acd7c0222311bcc40832ea0d68ce0c,
        0x2a6c78321d3f0, 0x80c6168330500b1, 0x53079bd23de39f, 0xfc07b3e799710331, five, two)
    else
      Next(82, 190, five, two);
      ghost var five, two := 5 * five, 4 * two;
    if k == 83 then
      if negative then Inverse(83, 192, 0x9b69dbe1b548ce7cc986afbe3ee11aba,
        0x35c9185e788446, 0xb1316a29201b59ab, 0x34811b60335a69, 0xacf8e0caccca7f46, five, two)
      else Lower(83, 192, 0xd2d80db02aabd62bf50a3fa490c30190,
        0x3507963ea48ec, 0x80c6168330500b1, 0x68e789cc14f81b, 0xfebe460298483a51, five, two)
    else
      Next(83, 192, five, two);
      ghost var five, two := 5 * five, 8 * two;
    if k == 84 then
      if negative then Inverse(84, 195, 0xf8a95fcf88747d9475a44c6397ce912a,
        0x6111f81019f677, 0xc7dea89a0e88e02d, 0x2a00e2b35c4854, 0x567c706566653fa3, five, two)
      else Lower(84, 195, 0x83c7088e1aab65db792667c6da79e0fa,
        0x42497bce4db27, 0x1018c2d0660a0162, 0x414b9b493656a0, 0xfdb1c721b6259957, five, two)
    else
      Next(84, 195, five, two);
      ghost var five, two := 5 * five, 4 * two;
    if k == 85 then
      if negative then Inverse(85, 197, 0xc6ede63fa05d314391503d1c79720dbb,
        0x47de3cd7af64ab, 0xb8f8fe74855f287e, 0x219a4ef5e36d10, 0x567c706566653fa3, five, two)
      else Lower(85, 197, 0xa4b8cab1a1563f52577001b891185938,
        0x45ef2348a6dfaf, 0xd95fca505abd7a7e, 0x189c164c174bf6, 0x4c7e5f87614aba7b, five, two)
    else
      Next(85, 197, five, two);
      ghost var five, two := 5 * five, 4 * two;
    if k == 86 then
      if negative then Inverse(86, 199, 0x9f24b832e6b0f4360dd9ca7d2df4d7c9,
        0xeeb96261b54f, 0x300076a6e252a4e, 0x4f64822b08eb0b, 0xff6c7c739d697e35, five, two)
      else Lower(86, 199, 0xcde6fd5e09abcf26ed4c0226b55e6f86,
        0x1cd08c114d9cda, 0x47a6a4384409a54d, 0x5a56c3cf87dac1, 0xe0a36347069f1a43, five, two)
    else
      Next(86, 199, five, two);
      ghost var five, two := 5 * five, 8 * two;
      if negative then Inverse(87, 202, 0xfea126b7d78186bce2f610c84987bfa8,
        0x7060c0ac070bce, 0xe1f7311765f5e895, 0x3652ed91401b49, 0x6d3b8f46a94c7f69, five, two)
      else Lower(87, 202, 0x80b05e5ac60b6178544f8158315b05b4,
        0x3ee2ab591f1ed1, 0xfa31f04bf9543132, 0x49359691174a8, 0x1234504a8b693201, five, two)
  }

  function Entry88(k: nat, negative: bool): (t: nat)
    requires 88 <= k <= 95
    ensures Good(if negative then 0 - k else k, t)
  {
    hide Good, Known, Isolated, Pow;
    Start(11);
    ghost var five, two := 32311742677852643549664402033982923967414535582065582275390625, 0x1000000000000000000000000000000000000000000000000000;
    if k == 88 then
      if negative then Inverse(88, 204, 0xcbb41ef979346bca4f2b40a03ad2ffb9,
        0x4e4aa31dddd957, 0xc4c848a336cb8e4a, 0x62877320f4c229, 0xf7a6070181c3591d, five, two)
      else Lower(88, 204, 0xa0dc75f1778e39d6696361ae3db1c721,
        0x4ee66448dc371d, 0xfb20d440b436b35e, 0x5b82fc355d1d2, 0x1234504a8b693201, five, two)
    else
      Next(88, 204, five, two);
      ghost var five, two := 5 * five, 4 * two;
    if k == 89 then
      if negative then Inverse(89, 206, 0xa2f67f2dfa90563b728900802f0f32fa,
        0x46324fe96e4903, 0xdc8b7b9cdf028c73, 0x1030a668df20a8, 0x32ddbe5e4af7cad3, five, two)
      else Lower(89, 206, 0xc913936dd571c84c03bc3a19cd1e38e9,
        0x23290e51edbe31, 0x598757ed27a39025, 0x549e940c3208ef, 0xd777506f6619844c, five, two)
    else
      Next(89, 206, five, two);
      ghost var five, two := 5 * five, 4 * two;
    if k == 90 then
      if negative then Inverse(90, 208, 0x825ecc24c873782f8ed400668c0c28c8,
        0x228dfc20ebc3de, 0x87b49cfd94fd2ba3, 0x31a84ae234233f, 0xc304aa6a85ea10e1, five, two)
      else Lower(90, 208, 0xfb5878494ace3a5f04ab48a04065c723,
        0x411af6e975aff9, 0x849f34d03c0f1101, 0x549e940c3208ef, 0xac5f738c51ae0370, five, two)
    else
      Next(90, 208, five, two);
      ghost var five, two := 5 * five, 8 * two;
    if k == 91 then
      if negative then Inverse(91, 211, 0xd097ad07a71f26b27e2000a41346a7a7,
        0x4ce3d734e5afee, 0xbcbae82123408825, 0x63c604e93c3781, 0xf4e6146962d8a905, five, two)
      else Lower(91, 211, 0x9d174b2dcec0e47b62eb0d64283f9c76,
        0x1bac942c0bc1bf, 0x5a32778e8dcc796e, 0x41e762ad7d11d2, 0xd6cc30cdfff09b03, five, two)
    else
      Next(91, 211, five, two);
      ghost var five, two := 5 * five, 4 * two;
    if k == 92 then
      if negative then Inverse(92, 213, 0xa6dfbd9fb8e5b88ecb4ccd500f6bb952,
        0x46aa580c0d8fc6, 0xd8d07e45430c9895, 0x16e22db4568793, 0x4635f75a4f7e2918, five, two)
      else Lower(92, 213, 0xc45d1df942711d9a3ba5d0bd324f8394,
        0x6025fb86a48f6b, 0xfab2a59dc2e63208, 0x2a38e95596395, 0x6e17389c744bb3b, five, two)
    else
      Next(92, 213, five, two);
      ghost var five, two := 5 * five, 4 * two;
    if k == 93 then
      if negative then Inverse(93, 215, 0x857fcae62d8493a56f70a4400c562ddb,
        0x33f4a3b25ff181, 0xc743006eaf2d0e4f, 0x16e22db4568793, 0x57c37530e35db35e, five, two)
      else Lower(93, 215, 0xf5746577930d6500ca8f44ec7ee36479,
        0x4e6be578d640e7, 0xa394cf9910d46822, 0x2dced731ca9968, 0x5f8d4ee016f3aa87, five, two)
    else
      Next(93, 215, five, two);
      ghost var five, two := 5 * five, 8 * two;
    if k == 94 then
      if negative then Inverse(94, 218, 0xd59944a37c0752a24be76d3346f0495f,
        0x510719b0695b6f, 0xc239974bccddc1c8, 0x228329b38d7ebf, 0x52ba0c0e010e66d7, five, two)
      else Lower(94, 218, 0x9968bf6abbe85f207e998b13cf4e1ecb,
        0x42f82fac639a8d, 0xdf825fce7825959a, 0x1ca1467f1e9fe1, 0x5f8d4ee016f3aa87, five, two)
    else
      Next(94, 218, five, two);
      ghost var five, two := 5 * five, 4 * two;
      if negative then Inverse(95, 220, 0xaae103b5fcd2a881d652bdc29f26a119,
        0x4c39fd9316cf75, 0xe4653d86dab4b82d, 0x476ce175c4437b, 0xd6027deef5543e20, five, two)
      else Lower(95, 220, 0xbfc2ef456ae276e89e3fedd8c321a67e,
        0x39627561125be2, 0x993749424cadaf11, 0x42d847498e7e6d, 0xb27981963829730f, five, two)
  }

  function Entry96(k: nat, negative: bool): (t: nat)
    requires 96 <= k <= 103
    ensures Good(if negative then 0 - k else k, t)
  {
    hide Good, Known, Isolated, Pow;
    Start(12);
    ghost var five, two := 12621774483536188886587657044524579674771302961744368076324462890625, 0x40000000000000000000000000000000000000000000000000000000;
    if k == 96 then
      if negative then Inverse(96, 222, 0x88b402f7fd75539b11dbcb0218ebb414,
        0x12204395694a47, 0x43e35f13a2b58995, 0x354c9de05af934, 0xc79fbe570ff3c413, five, two)
      else Lower(96, 222, 0xefb3ab16c59b14a2c5cfe94ef3ea101e,
        0x264eef148fb3a4, 0x51d37bd30303810b, 0x6927365e1e3211, 0xe09b16b19657dd17, five, two)
    else
      Next(96, 222, five, two);
      ghost var five, two := 5 * five, 8 * two;
    if k == 97 then
      if negative then Inverse(97, 225, 0xdab99e59958885c4e95fab368e45eced,
        0x2b4966069c8457, 0x6553c2c0f90ab34a, 0x476ce175c4437b, 0xa731f262afa9d089, five, two)
      else Lower(97, 225, 0x95d04aee3b80ece5bba1f1d158724a12,
        0x2fe2aad9b3a08d, 0xa3a6f7a606070216, 0x263601875935ab, 0x8296c7dc4344303f, five, two)
    else
      Next(97, 225, five, two);
      ghost var five, two := 5 * five, 4 * two;
    if k == 98 then
      if negative then Inverse(98, 227, 0xaefae51477a06b03ede622920b6b23f1,
        0x5692cc0d3908ae, 0xfd5166e26e9ac039, 0x13e9ac2dc8cd53, 0x3a44088119923b72, five, two)
      else Lower(98, 227, 0xbb445da9ca61281f2a8a6e45ae8edc97,
        0x4568d5f1f6d61b, 0xbdc51f9ee047d889, 0x263601875935ab, 0x68789fe3690359cc, five, two)
    else
      Next(98, 227, five, two);
      ghost var five, two := 5 * five, 4 * two;
    if k == 99 then
      if negative then Inverse(99, 229, 0x8bfbea76c619ef3657eb4edb3c55b65a,
        0x3e81dc456322ed, 0xe49fc253240d4824, 0x27d3585b919aa6, 0x91aa1542bfed949d, five, two)
      else Lower(99, 229, 0xea1575143cf97226f52d09d71a3293bd,
        0x3d9c20d74f6dff, 0x86c199599b922d7b, 0x5438b82959d372, 0xb836b2f7bfdfdc39, five, two)
    else
      Next(99, 229, five, two);
      ghost var five, two := 5 * five, 8 * two;
    if k == 100 then
      if negative then Inverse(100, 232, 0xdff9772470297ebd59787e2b93bc56f7,
        0x1900be8227a792, 0x3927f094c9035209, 0x60cb8528e347ab, 0xdd455bb2e949a672, five, two)
      else Lower(100, 232, 0x924d692ca61be758593c2626705f9c56,
        0x19ee1f3aff15ee, 0x5abec78897cda4a3, 0x36f91105660d09, 0xc0621eab70ad9512, five, two)
    else
      Next(100, 232, five, two);
      ghost var five, two := 5 * five, 4 * two;
    if k == 101 then
      if negative then Inverse(101, 234, 0xb32df8e9f354656447939822dc96abf9,
        0x46a6c665fae685, 0xc9e263b0ce3c878c, 0x1d5c33a2a3b7c3, 0x53e54f371ed412a1, five, two)
      else Lower(101, 234, 0xb6e0c377cfa2e12e6f8b2fb00c77836c,
        0x40d34e137db6d3, 0xb57d8f112f9b4946, 0x2eef1feef256f7, 0x836683fcee8d9e69, five, two)
    else
      Next(101, 234, five, two);
      ghost var five, two := 5 * five, 4 * two;
    if k == 102 then
      if negative then Inverse(102, 236, 0x8f57fa54c2a9eab69fa946824a12232d,
        0x46a6c665fae685, 0xfc5afc9d01cba96f, 0x177cf61bb62c9c, 0x53e54f371ed412a1, five, two)
      else Lower(102, 236, 0xe498f455c38b997a0b6dfb9c0f956447,
        0x49c56525c366c1, 0xa53a76e2a681b22a, 0x33682b78152eee, 0x73236bce6574074d, five, two)
    else
      Next(102, 236, five, two);
      ghost var five, two := 5 * five, 8 * two;
      if negative then Inverse(103, 239, 0xe55990879ddcaabdcc420a6a101d0515,
        0x12d3f280569d6d, 0x2a08097a8413f782, 0x7097e6dc56ef2c, 0xfb5a662989d47f1d, five, two)
      else Lower(103, 239, 0x8edf98b59a373fec4724bd4189bd5eac,
        0x1808a7b4dc67a5, 0x56209a62c3062536, 0x343de27bac46d7, 0xbb368a6b6964fbff, five, two)
  }

  function Entry104(k: nat, negative: bool): (t: nat)
    requires 104 <= k <= 111
    ensures Good(if negative then 0 - k else k, t)
  {
    hide Good, Known, Isolated, Pow;
    Start(13);
    ghost var five, two := 4930380657631323783823303533017413935457540219431393779814243316650390625, 0x2000000000000000000000000000000000000000000000000000000000000;
    if k == 104 then
      if negative then Inverse(104, 241, 0xb77ada0617e3bbcb09ce6ebb40173744,
        0x25a7e500ad3ada, 0x691417b24a31eac5, 0x567571d8e1539b, 0xf1434d25b0212834, five, two)
      else Lower(104, 241, 0xb2977ee300c50fe758edec91ec2cb657,
        0x513d8f5942ea82, 0xe8e7f7fde9decb4b, 0xe1a9d6367ef99, 0x286f2cd0428c55ea, five, two)
    else
      Next(104, 241, five, two);
      ghost var five, two := 5 * five, 4 * two;
    if k == 105 then
      if negative then Inverse(105, 243, 0x92c8ae6b464fc96f3b0b8bc90012929d,
        0x402a2229d397cd, 0xdfd0560c56d02398, 0x114ab05e93771f, 0x3c50d3496c084a0d, five, two)
      else Lower(105, 243, 0xdf3d5e9bc0f653e12f2967b66737e3ed,
        0xd4215249cc2d4, 0x1e6852df7a8e064b, 0x6e4b525eddf679, 0xfcf5abdf79db6a89, five, two)
    else
      Next(105, 243, five, two);
      ghost var five, two := 5 * five, 8 * two;
    if k == 106 then
      if negative then Inverse(106, 246, 0xeadab0aba3b2dbe52b45ac74ccea842e,
        0x355527db4094ea, 0x7444e8cc81bc52f3, 0x5fd55567ee26f1, 0xd0ec849dcef2e29a, five, two)
      else Lower(106, 246, 0x8b865b215899f46cbd79e0d20082ee74,
        0x10929a6dc3f389, 0x3cd0a5bef51c0c96, 0x38cdebd4029397, 0xd07300791398bce3, five, two)
    else
      Next(106, 246, five, two);
      ghost var five, two := 5 * five, 4 * two;
    if k == 107 then
      if negative then Inverse(107, 248, 0xbbe226efb628afea890489f70a55368b,
        0x532a741be38749, 0xe2a27e5a36573513, 0x242abce6a84233, 0x628eef101a58007a, five, two)
      else Lower(107, 248, 0xae67f1e9aec07187ecd8590680a3aa11,
        0x22eabbfe359551, 0x66813f70c5d4325d, 0x38cdebd4029397, 0xa6c266c742e0971c, five, two)
    else
      Next(107, 248, five, two);
      ghost var five, two := 5 * five, 4 * two;
    if k == 108 then
      if negative then Inverse(108, 250, 0x964e858c91ba26553a6a07f8d510f86f,
        0x1a086f10395c13, 0x58ad836914959a6b, 0x485579cd508466, 0xf66555a841dc0131, five, two)
      else Lower(108, 250, 0xda01ee641a708de9e80e6f4820cc9495,
        0x39d8e5f2c39f8b, 0x87db53ff066783c9, 0x38cdebd4029397, 0x85685239024d45b0, five, two)
    else
      Next(108, 250, five, two);
      ghost var five, two := 5 * five, 8 * two;
    if k == 109 then
      if negative then Inverse(109, 253, 0xf07da27a82c370885d767327bb4e5a4c,
        0x1272a47124ff7, 0x27466925f7c99c2, 0x777bc12148d34d, 0xfe60b706ae71c4bd, five, two)
      else Lower(109, 253, 0x884134fe908658b23109058d147fdcdd,
        0x1d0dd23d39f144, 0x6d2cdd26d2be75d9, 0x38cdebd4029397, 0xd573b6c19d486f80, five, two)
    else
      Next(109, 253, five, two);
      ghost var five, two := 5 * five, 4 * two;
    if k == 110 then
      if negative then Inverse(110, 255, 0xc06481fb9bcf8d39e45ec2862f71e1d6,
        0x51b0f5039de9e3, 0xd96615068c5bf4f8, 0x4f62a0757949f5, 0xd34314989da47493, five, two)
      else Lower(110, 255, 0xaa51823e34a7eedebd4b46f0599fd415,
        0x245146cc886d95, 0x6d2cdd26d2be75d9, 0x40116063510fe8, 0xc098be6f74c670c5, five, two)
    else
      Next(110, 255, five, two);
      ghost var five, two := 5 * five, 4 * two;
      if negative then Inverse(111, 257, 0x99ea0196163fa42e504bced1bf8e4e45,
        0x228572732943e6, 0x72d60af134e57ae1, 0x2f2b829074a5fd, 0x9ce98f56fa8d7755, five, two)
      else Lower(111, 257, 0xd4e5e2cdc1d1ea966c9e18ac7007c91a,
        0x389e35803c9730, 0x88293bc16d090c67, 0x4459f6fe30f589, 0xa460fd1870e7be96, five, two)
  }

  function Entry112(k: nat, negative: bool): (t: nat)
    requires 112 <= k <= 119
    ensures Good(if negative then 0 - k else k, t)
  {
    hide Good, Known, Isolated, Pow;
    Start(14);
    ghost var five, two := 1925929944387235853055977942584927318538101648215388195239938795566558837890625, 0x100000000000000000000000000000000000000000000000000000000000000000;
    if k == 112 then
      if negative then Inverse(112, 260, 0xf64335bcf065d37d4d4617b5ff4a16d5,
        0x1e2591fb967d23, 0x3ead76055327bcff, 0x73bcd62d5a3b97, 0xf0a0c78f3089328e, five, two)
      else Lower(112, 260, 0x850fadc09923329e03e2cf6bc604ddb0,
        0x2362e17025de7e, 0x88293bc16d090c67, 0x20f7158e0b170b, 0x7ed859327ad02489, five, two)
    else
      Next(112, 260, five, two);
      ghost var five, two := 5 * five, 4 * two;
    if k == 113 then
      if negative then Inverse(113, 262, 0xc5029163f384a9310a9e795e65d4df11,
        0x3b52da03c6a215, 0x9a2c62ebc8dde822, 0x3962461cf9f1b3, 0x9521daa8bad3076b, five, two)
      else Lower(113, 262, 0xa6539930bf6bff4584db8346b786151c,
        0x3f22f0754fa916, 0xc25a14ae5ff03ae9, 0x195443230f0325, 0x4df862d47a21dde5, five, two)
    else
      Next(113, 262, five, two);
      ghost var five, two := 5 * five, 4 * two;
    if k == 114 then
      if negative then Inverse(114, 264, 0x9d9ba7832936edc0d54b944b84aa4c0d,
        0xca4005d1333c5, 0x29105cdc793cea64, 0x4415b293407516, 0xdd2d83db91371ac5, five, two)
      else Lower(114, 264, 0xcfe87f7cef46ff16e612641865679a63,
        0x5b95ce242b14ee, 0xe18a3c3690ca93ab, 0x195443230f0325, 0x3e604f1061b4b184, five, two)
    else
      Next(114, 264, five, two);
      ghost var five, two := 5 * five, 8 * two;
    if k == 115 then
      if negative then Inverse(115, 267, 0xfc2c3f3841f17c67bbac2078d443ace2,
        0x617229b241a749, 0xc5d987424a3cff77, 0x482a28f81b3fbf, 0x9285132eb2b0da7a, five, two)
      else Lower(115, 267, 0x81f14fae158c5f6e4fcb7e8f3f60c07e,
        0x3ce3d83da149f3, 0xefeb3c3d2469184e, 0x20e0bbb8d4e2e3, 0x818b9e22f49e39e9, five, two)
    else
      Next(115, 267, five, two);
      ghost var five, two := 5 * five, 4 * two;
    if k == 116 then
      if negative then Inverse(116, 269, 0xc9bcff6034c13052fc89b393dd02f0b5,
        0x4df4ee283485d4, 0xc5d987424a3cff77, 0x212fb1e400fcd5, 0x543994593a3e915d, five, two)
      else Lower(116, 269, 0xa26da3999aef7749e3be5e330f38f09d,
        0x2303e3a5ff80d4, 0x6e5f9e1a2fcade65, 0x2ee249fb3b166b, 0x93c9242670695416, five, two)
    else
      Next(116, 269, five, two);
      ghost var five, two := 5 * five, 4 * two;
    if k == 117 then
      if negative then Inverse(117, 271, 0xa163ff802a3426a8ca07c2dcb0cf26f7,
        0x3a0b836c33ee21, 0xb824b9cff11d524f, 0x1a8c8e5000ca44, 0x543994593a3e915d, five, two)
      else Lower(117, 271, 0xcb090c8001ab551c5cadf5bfd3072cc5,
        0x5aa7268aba7774, 0xe49a216c235254dd, 0x2ee249fb3b166b, 0x763a8351f3877678, five, two)
    else
      Next(117, 271, five, two);
      ghost var five, two := 5 * five, 4 * two;
    if k == 118 then
      if negative then Inverse(118, 273, 0x811ccc668829b8870806357d5a3f525f,
        0x2e6f9c568ff1b4, 0xb824b9cff11d524f, 0x26287565a4c6b1, 0x975127e385158a48, five, two)
      else Lower(118, 273, 0xfdcb4fa002162a6373d9732fc7c8f7f6,
        0x16a9c9a2ae9ddd, 0x2db86d15a0aa10f9, 0x791a81babe5ac6, 0xf44febdbaacb8503, five, two)
    else
      Next(118, 273, five, two);
      ghost var five, two := 5 * five, 8 * two;
      if negative then Inverse(119, 276, 0xce947a3da6a9273e733d226229feea32,
        0x60bffbd8a9f70c, 0xefca6d8fdeb1ad47, 0x7a1b1145427bd, 0x12ea24fc70a2b149, five, two)
      else Lower(119, 276, 0x9e9f11c4014dda7e2867e7fddcdd9afa,
        0x1885d0a559c8ea, 0x4f279bdd6c80481f, 0x40454ee2b5837d, 0xcf7430f22c4ff78a, five, two)
  }

  function Entry120(k: nat, negative: bool): (t: nat)
    requires 120 <= k <= 127
    ensures Good(if negative then 0 - k else k, t)
  {
    hide Good, Known, Isolated, Pow;
    Start(15);
    ghost var five, two := 752316384526264005099991383822237233803945956334136013765601092018187046051025390625, 0x4000000000000000000000000000000000000000000000000000000000000000000000;
    if k == 120 then
      if negative then Inverse(120, 278, 0xa54394fe1eedb8fec2974eb4ee658828,
        0x3f9d023ad6e4b1, 0xc514278a2847f0a3, 0x1e86c451509ef4, 0x5e92b8ee332d766d, five, two)
      else Lower(120, 278, 0xc646d63501a1511db281e1fd541501b8,
        0x3d4e899d607649, 0x9e4f37bad900903e, 0x26441b9ab133f9, 0x62cfff8d276cd7d7, five, two)
    else
      Next(120, 278, five, two);
      ghost var five, two := 5 * five, 4 * two;
    if k == 121 then
      if negative then Inverse(121, 280, 0x843610cb4bf160cbcedf722a585139ba,
        0x3c94a0146d8d0b, 0xea9a93b5c87214de, 0x597dbbe9efe6f, 0x15a900d01c501ca9, five, two)
      else Lower(121, 280, 0xf7d88bc24209a5651f225a7ca91a4226,
        0x2c06b71b5d048d, 0x5af30ae076416b27, 0x67471bcebbfac3, 0xd559e873b130890e, five, two)
    else
      Next(121, 280, five, two);
      ghost var five, two := 5 * five, 8 * two;
    if k == 122 then
      if negative then Inverse(122, 283, 0xd389b478798234794aff1d108d4ec2c3,
        0xe5a77e9ef1b95, 0x22bd92aac02249c6, 0x6628bd9cb461cc, 0xf7434ebb8e19b665, five, two)
      else Lower(122, 283, 0x9ae757596946075f3375788de9b06958,
        0x45a3b3d976e930, 0xe62d8bbd7287593f, 0xb3677fc6c5b31, 0x250fb3cb5a754d7b, five, two)
    else
      Next(122, 283, five, two);
      ghost var five, two := 5 * five, 4 * two;
    if k == 123 then
      if negative then Inverse(123, 285, 0xa93af6c6c79b5d2dd598e40d3dd89bcf,
        0x42b323b0902591, 0xc9cc315df75a0130, 0x25fe33dcb1ee67, 0x72f242b3170448c1, five, two)
      else Lower(123, 285, 0xc1a12d2fc39789370052d6b1641c83ae,
        0x50da2bd5e34461, 0xd5ca993a3d96ebc8, 0x4aa7b6dbf1e546, 0xc567a6b708a67e51, five, two)
    else
      Next(123, 285, five, two);
      ghost var five, two := 5 * five, 4 * two;
    if k == 124 then
      if negative then Inverse(124, 287, 0x87625f056c7c4a8b11471cd764ad4972,
        0x42b323b0902591, 0xfc3f3db57530817c, 0x1e64f64a27f1ec, 0x72f242b3170448c1, five, two)
      else Lower(124, 287, 0xf209787bb47d6b84c0678c5dbd23a49a,
        0x6ccfc903c9cc5b, 0xe62d8bbd7287593f, 0x2553db6df8f2a3, 0x4ef642af9d0f65ba, five, two)
    else
      Next(124, 287, five, two);
      ghost var five, two := 5 * five, 8 * two;
    if k == 125 then
      if negative then Inverse(125, 290, 0xd89d64d57a607744e871c7bf077ba8b7,
        0x45106cef103fdb, 0xa33e34a53b084cec, 0x4055da72100b47, 0x9810d87d977454ef, five, two)
      else Lower(125, 290, 0x9745eb4d50ce6332f840b7ba963646e0,
        0x8ef7db2ba1b37, 0x1e3e41cf9117fd81, 0x4679e712695b64, 0xee88bdf28a434e43, five, two)
    else
      Next(125, 290, five, two);
      ghost var five, two := 5 * five, 4 * two;
    if k == 126 then
      if negative then Inverse(126, 292, 0xad4ab7112eb3929d86c16c98d2c953c6,
        0xdd015c969a65f, 0x28cf8d294ec2133b, 0x4dc64e8de2ba49, 0xe5ca0f5af56aaeac, five, two)
      else Lower(126, 292, 0xbd176620a501fbffb650e5a93bc3d898,
        0x3e4bee423cdeec, 0xa8adfa08600705ab, 0x4fea6806d735c5, 0xd862ecd27bae1552, five, two)
    else
      Next(126, 292, five, two);
      ghost var five, two := 5 * five, 4 * two;
      if negative then Inverse(127, 294, 0x8aa22c0dbef60ee46bcdf07a423aa96b,
        0x37405725a6997c, 0xcc0dc1ce89ca6027, 0x1a9aedf0b510c1, 0x624211000c1cbee6, five, two)
      else Lower(127, 294, 0xec5d3fa8ce427affa3e51f138ab4cebe,
        0x4ddee9d2cc16a7, 0xa8adfa08600705ab, 0x4fea6806d735c5, 0xad1bf0a862f1aaa8, five, two)
  }

  function Entry128(k: nat, negative: bool): (t: nat)
    requires 128 <= k <= 135
    ensures Good(if negative then 0 - k else k, t)
  {
    hide Good, Known, Isolated, Pow;
    Start(16);
    ghost var five, two := 293873587705571876992184134305561419454666389193021880377187926569604314863681793212890625, 0x200000000000000000000000000000000000000000000000000000000000000000000000000;
    if k == 128 then
      if negative then Inverse(128, 297, 0xddd0467c64bce4a0ac7cb3f6d05ddbde,
        0x10c78cdeeb3a0b, 0x26bb2e53a0ef002d, 0x6a6bb7c2d44304, 0xf5a52a801e47dd3f, five, two)
      else Lower(128, 297, 0x93ba47c980e98cdfc66f336c36b10137,
        0x2566d6425db3fd, 0x81a0d346afb8d826, 0x3aa89f249a74e1, 0xcb4d2a2a0d6a8e33, five, two)
    else
      Next(128, 297, five, two);
      ghost var five, two := 5 * five, 4 * two;
    if k == 129 then
      if negative then Inverse(129, 299, 0xb1736b96b6fd83b3bd308ff8a6b17cb2,
        0x4e559d501705f3, 0xe204cf837389b80f, 0xb3769d46a1dc7, 0x205ce7e14edeb72e, five, two)
      else Lower(129, 299, 0xb8a8d9bbe123f017b80b0047445d4184,
        0x2ab7487aece436, 0x766fed9938ea9e21, 0x45498395b8d553, 0xc01c447c969c542e, five, two)
    else
      Next(129, 299, five, two);
      ghost var five, two := 5 * five, 4 * two;
    if k == 130 then
      if negative then Inverse(130, 301, 0x8df5efabc5979c8fca8d3ffa1ef463c1,
        0x1d1729c25a62d3, 0x68eb2dc9660d2e3c, 0x3385fd6b2e9e61, 0xb9d3717cab39f82f, five, two)
      else Lower(130, 301, 0xe6d3102ad96cec1da60dc059157491e5,
        0x155ba43d76721b, 0x2f5ff8a3b05dd8da, 0x62770a1f2f85f1, 0xda68a2bc43f03161, five, two)
    else
      Next(130, 301, five, two);
      ghost var five, two := 5 * five, 8 * two;
    if k == 131 then
      if negative then Inverse(131, 304, 0xe3231912d5bf60e610e1fff697ed6c69,
        0x3a2e5384b4c5a6, 0x8325f93bbf9079cb, 0x464f27b1b2e187, 0x9e7cb55c356538fd, five, two)
      else Lower(131, 304, 0x9043ea1ac7e4139287c89837ad68db2f,
        0x3779e55eb04a69, 0xc4e2c5f13a3967c2, 0x19a827ea4ff80f, 0x5b0e7f96245aaf87, five, two)
    else
      Next(131, 304, five, two);
      ghost var five, two := 5 * five, 4 * two;
    if k == 132 then
      if negative then Inverse(132, 306, 0xb5b5ada8aaff80b80d819992132456ba,
        0x19b2b23e14bb09, 0x4868aba5fd3d6cb2, 0x4ba70cd625add4, 0xd52a2d9d210eb761, five, two)
      else Lower(132, 306, 0xb454e4a179dd187729babe4598c311fb,
        0x1448835240109e, 0x3996a7817950d175, 0x57b7c0ef0fb70f, 0xf90caf559ec91b32, five, two)
    else
      Next(132, 306, five, two);
      ghost var five, two := 5 * five, 4 * two;
    if k == 133 then
      if negative then Inverse(133, 308, 0x915e2486ef32cd600ace1474dc1d122e,
        0x3365647c297612, 0xb505ad1ef9198fbd, 0x37f5842d570091, 0xc517ed5e0d14238f, five, two)
      else Lower(133, 308, 0xe16a1dc9d8545e94f4296dd6fef3d67a,
        0xa2441a920084f, 0x17090fcd63b9ed62, 0x66aa6f3cb6ea19, 0xe93128f142b80c7d, five, two)
    else
      Next(133, 308, five, two);
      ghost var five, two := 5 * five, 8 * two;
    if k == 134 then
      if negative then Inverse(134, 311, 0xe896a0d7e51e156677b020baf9c81d17,
        0x13a5550e3aad21, 0x2b3f233fdbc71175, 0x60d5d2fda0de80, 0xd52a2d9d210eb761, five, two)
      else Lower(134, 311, 0x8ce2529e2734bb1d1899e4a65f58660c,
        0x32b5484da0298b, 0xb8487e6b1dcf6b10, 0x2c869b181af73a, 0xa1d0bd9999933f03, five, two)
    else
      Next(134, 311, five, two);
      ghost var five, two := 5 * five, 4 * two;
      if negative then Inverse(135, 313, 0xba121a4650e4ddeb92f34d62616ce413,
        0x4e955438eab484, 0xd83bb03f4ae35749, 0xf70192fe13d13, 0x2a7ac2975151e97b, five, two)
      else Lower(135, 313, 0xb01ae745b101e9e45ec05dcff72e7f8f,
        0x5731933a76fc1f, 0xfd80bd9f427cc047, 0x80a502b4424a6, 0x17603f3150389495, five, two)
  }

  function Entry136(k: nat, negative: bool): (t: nat)
    requires 136 <= k <= 143
    ensures Good(if negative then 0 - k else k, t)
  {
    hide Good, Known, Isolated, Pow;
    Start(17);
    ghost var five, two := 114794370197489014450071927463109929474479058278524172022339033816251685493625700473785400390625, 0x8000000000000000000000000000000000000000000000000000000000000000000000000000000;
    if k == 136 then
      if negative then Inverse(136, 315, 0x94db483840b717efa8c2a44eb4571cdc,
        0x2c0ffa4bc62ce5, 0x978e1389a3d60718, 0x31f5731d05c4b2, 0xabd5fc029f6c89dd, five, two)
      else Lower(136, 315, 0xdc21a1171d42645d76707543f4fa1f73,
        0x67463390ff456b, 0xf03430018257edf4, 0x3daffdfe94d085, 0x8f7a573211648b8f, five, two)
    else
      Next(136, 315, five, two);
      ghost var five, two := 5 * five, 8 * two;
    if k == 137 then
      if negative then Inverse(137, 318, 0xee2ba6c0678b597f746aa07ded582e2c,
        0x8cffedbf46f61, 0x12f1c271347ac0e3, 0x75abbd69a03970, 0xfcf59de68dc694f1, five, two)
      else Lower(137, 318, 0x899504ae72497eba6a06494a791c53a8,
        0x3eb9f98a251ec3, 0xe96e605c558225c6, 0x149ec631f282be, 0x4cbc8170b725b1e7, five, two)
    else
      Next(137, 318, five, two);
      ghost var five, two := 5 * five, 4 * two;
    if k == 138 then
      if negative then Inverse(138, 320, 0xbe89523386091465f6bbb397f1135823,
        0x70ccbe329f2b4, 0x12f1c271347ac0e3, 0x5b3bc0d5c2eb4d, 0xf5286c37ac6be6da, five, two)
      else Lower(138, 320, 0xabfa45da0edbde690487db9d17636892,
        0x2484ae518f3011, 0x6cb8406ead3b9917, 0x338cef7cde46db, 0x997902e16e4b63ce, five, two)
    else
      Next(138, 320, five, two);
      ghost var five, two := 5 * five, 4 * two;
    if k == 139 then
      if negative then Inverse(139, 322, 0x986ddb5c6b3a76b7f89629465a75e01c,
        0x1c332f8ca7cad0, 0x5eb8cc360665c46f, 0x314441457927c1, 0xa57bc87c8bbe1e97, five, two)
      else Lower(139, 322, 0xd6f8d7509292d60345a9d2845d3c42b6,
        0x160467739b5dbb, 0x347040a99f1aff61, 0x67a1d94717d22a, 0xf6d246e25f709391, five, two)
    else
      Next(139, 322, five, two);
      ghost var five, two := 5 * five, 8 * two;
    if k == 140 then
      if negative then Inverse(140, 325, 0xf3e2f893dec3f1265a89dba3c3efccfa,
        0x31554f9f9cbd7d, 0x67912bbed710cfb4, 0x77bbb0f80ad7eb, 0xfb5c3529c178d7c1, five, two)
      else Lower(140, 325, 0x865b86925b9bc5c20b8a2392ba45a9b2,
        0x199379e16ce9c2, 0x6176a6e0dd9b7a59, 0x3aef117f2f0123, 0xe094b78b3da10656, five, two)
    else
      Next(140, 325, five, two);
      ghost var five, two := 5 * five, 4 * two;
    if k == 141 then
      if negative then Inverse(141, 327, 0xc31bfa0fe5698db8486e494fcff30a62,
        0x31554f9f9cbd7d, 0x817576ae8cd503a1, 0x5fc95a6008acbc, 0xfb5c3529c178d7c1, five, two)
      else Lower(141, 327, 0xa7f26836f282b7328e6cac7768d7141e,
        0x4a399e0a1619a5, 0xe247ffd8e8807a9f, 0xa48ed5685d140, 0x1f5ab2172d4985ed, five, two)
    else
      Next(141, 327, five, two);
      ghost var five, two := 5 * five, 4 * two;
    if k == 142 then
      if negative then Inverse(142, 329, 0x9c1661a651213e2d06bea10ca65c084e,
        0x1e2d0a59349af1, 0x62fbc70fbfac0e99, 0x4ca11519a08a30, 0xfb5c3529c178d7c1, five, two)
      else Lower(142, 329, 0xd1ef0244af2364ff3207d795430cd926,
        0x67b7fb68d73fb9, 0xfcf4ba4e5a6f08d4, 0x2923b55a17450, 0x64556d16f751ac9, five, two)
    else
      Next(142, 329, five, two);
      ghost var five, two := 5 * five, 8 * two;
      if negative then Inverse(143, 332, 0xf9bd690a1b68637b3dfdce7aa3c673b0,
        0x5571b2c2441db4, 0xaf2bfe1cc092732d, 0x2e740ac06bef3f, 0x5f3c44d0411ffdb9, five, two)
      else Lower(143, 332, 0x8335616aed761f1f7f44e6bd49e807b8,
        0x416a8f57cbea89, 0xff442fbe0c78c536, 0x52476ab42e8a, 0x141115d164a9ef5, five, two)
  }

  function Entry144(k: nat, negative: bool): (t: nat)
    requires 144 <= k <= 151
    ensures Good(if negative then 0 - k else k, t)
  {
    hide Good, Known, Isolated, Pow;
    Start(18);
    ghost var five, two := 44841550858394146269559346665277316200968382140048504696226185084473314645947539247572422027587890625, 0x400000000000000000000000000000000000000000000000000000000000000000000000000000000000;
    if k == 144 then
      if negative then Inverse(144, 334, 0xc7caba6e7c5382c8fe64a52ee96b8fc0,
        0x5bbff3cfb833a3, 0xeb1fc91620284b44, 0x34c24bcde0052e, 0x8734217680d93873, five, two)
      else Lower(144, 334, 0xa402b9c5a8d3a6e75f16206c9c6209a6,
        0x51fc1c5764a90d, 0xffef9aab6bc57e25, 0x2923b55a1745, 0x806d586f510c62, five, two)
    else
      Next(144, 334, five, two);
      ghost var five, two := 5 * five, 4 * two;
    if k == 145 then
      if negative then Inverse(145, 336, 0x9fd561f1fd0f9bd3feb6ea8bedefa633,
        0x125997298b3d87, 0x3ac7f245880a12d1, 0x403c75eb262880, 0xcdc5152443ed83b7, five, two)
      else Lower(145, 336, 0xcd036837130890a136dba887c37a8c0f,
        0x65ee7651eeba19, 0xfe9047942a1a1b9f, 0xcdb28ac27459, 0x201b561bd443188, five, two)
    else
      Next(145, 336, five, two);
      ghost var five, two := 5 * five, 8 * two;
    if k == 146 then
      if negative then Inverse(146, 339, 0xffbbcfe994e5c61ffdf17746497f7052,
        0x4b3cb322add94b, 0x96a1857849931873, 0x4ee9601baf9fa9, 0x9dfcd50d3486eb44, five, two)
      else Lower(146, 339, 0x802221226be55a64c2494954da2c9789,
        0x3f43089ec02a9f, 0xfcc8bbb9689e492b, 0x4047cb5cc45bd, 0x100dab0dea218c40, five, two)
    else
      Next(146, 339, five, two);
      ghost var five, two := 5 * five, 4 * two;
    if k == 147 then
      if negative then Inverse(147, 341, 0xcc963fee10b7d1b3318df905079926a8,
        0x2c6848e3018de7, 0x6f225034fc715da2, 0x4ee9601baf9fa9, 0xc57c0a5081a8a615, five, two)
      else Lower(147, 341, 0xa02aa96b06deb0fdf2db9baa10b7bd6c,
        0x20e3d42c54330b, 0x69236b2130f81eaf, 0x34fa43b9518fbc, 0xa95a1758d97e4faf, five, two)
    else
      Next(147, 341, five, two);
      ghost var five, two := 5 * five, 4 * two;
    if k == 148 then
      if negative then Inverse(148, 343, 0xa3ab66580d5fdaf5c13e60d0d2e0ebba,
        0x11c3505acd6bf6, 0x3791281a7e38aed1, 0x4de3d69ec2d97f, 0xf3a8e5520c268c88, five, two)
      else Lower(148, 343, 0xc83553c5c8965d3d6f92829494e5acc7,
        0x489f86f7515ed8, 0xb9b8ca1ca9abe1f5, 0x4238d4a7a5f3ab, 0xa95a1758d97e4faf, five, two)
    else
      Next(148, 343, five, two);
      ghost var five, two := 5 * five, 4 * two;
    if k == 149 then
      if negative then Inverse(149, 345, 0x82ef85133de648c49a984d73dbe722fb,
        0xe35d9e23deff8, 0x3791281a7e38aed1, 0x3fadfcbc84e987, 0xf901f68c10f780d9, five, two)
      else Lower(149, 345, 0xfa42a8b73abbf48ccb772339ba1f17f9,
        0x5ac768b525b68e, 0xb9b8ca1ca9abe1f5, 0x78b079e122facd, 0xf6ea258b7a32941f, five, two)
    else
      Next(149, 345, five, two);
      ghost var five, two := 5 * five, 8 * two;
    if k == 150 then
      if negative then Inverse(150, 348, 0xd17f3b51fca3a7a0f75a15862ca504c5,
        0x4e1a83366ab1c3, 0xbee1921dad01e6b4, 0x2a86375ae5e3c6, 0x67ed5bb6e2e86353, five, two)
      else Lower(150, 348, 0x9c69a97284b578d7ff2a760414536efb,
        0x38ffaebd830c8d, 0xba9446d659b5668b, 0x25a662c3480fc3, 0x7b3e33975116e8ea, five, two)
    else
      Next(150, 348, five, two);
      ghost var five, two := 5 * five, 4 * two;
      if negative then Inverse(151, 350, 0xa798fc4196e952e72c48113823b73704,
        0x4e1a83366ab1c3, 0xee99f6a518426061, 0x2204f91584b638, 0x67ed5bb6e2e86353, five, two)
      else Lower(151, 350, 0xc38413cf25e2d70dfef5138519684aba,
        0x17a9846032c714, 0x3df6e5492228dcb1, 0x5d99dc4f9d327f, 0xf51d3938bbb830e4, five, two)
  }

  function Entry152(k: nat, negative: bool): (t: nat)
    requires 152 <= k <= 159
    ensures Good(if negative then 0 - k else k, t)
  {
    hide Good, Known, Isolated, Pow;
    Start(19);
    ghost var five, two := 17516230804060213386546619791123951641003274273456447146963353548622388533573257518582977354526519775390625, 0x10000000000000000000000000000000000000000000000000000000000000000000000000000000000000000;
    if k == 152 then
      if negative then Inverse(152, 352, 0x8613fd0145877585bd06742ce95f5f36,
        0x41be61cc35af17, 0xfb0daebc869647b6, 0x166cb2759647ff, 0x55a1d496fecab0ed, five, two)
      else Lower(152, 352, 0xf46518c2ef5b8cd17eb258665fc25d69,
        0x5ea61180cb1c5, 0xc649441d3a1c5bd, 0x76fced03250414, 0xf946b9b728983101, five, two)
    else
      Next(152, 352, five, two);
      ghost var five, two := 5 * five, 8 * two;
    if k == 153 then
      if negative then Inverse(153, 355, 0xd686619ba27255a2c80a537b0efefebd,
        0x663c2e5d5e990b, 0xf400558ef05b1083, 0x5de096035af301, 0xe00dd42b4e1ad70c, five, two)
      else Lower(153, 355, 0x98bf2f79d5993802ef2f773ffbd97a61,
        0x1d93e5783f78d9, 0x6324a20e9d0e2de8, 0x355314bcb72403, 0xb2bdc49e077dabe1, five, two)
    else
      Next(153, 355, five, two);
      ghost var five, two := 5 * five, 4 * two;
    if k == 154 then
      if negative then Inverse(154, 357, 0xab9eb47c81f5114f066ea92f3f326564,
        0x6afad14cfb808, 0x13f28163a2403977, 0x50813bd9bb82f1, 0xf02c466edd2119e1, five, two)
      else Lower(154, 357, 0xbeeefb584aff8603aafb550ffacfd8fa,
        0x4fe1897dbc98e9, 0xd634b16d1c32a835, 0x5bc1211ff86e7e, 0xf60b8c0ce05f40ff, five, two)
    else
      Next(154, 357, five, two);
      ghost var five, two := 5 * five, 4 * two;
    if k == 155 then
      if negative then Inverse(155, 359, 0x894bc396ce5da7726b8bba8c328eb783,
        0x39a9e3062ce9cf, 0xd709974181c937f9, 0x1d8705e85e512a, 0x6e1ce2859d707035, five, two)
      else Lower(155, 359, 0xeeaaba2e5dbf678495ba2a53f983cf38,
        0x11007c76e030d5, 0x24792af5de679caf, 0x6e5f6b8fcbbe68, 0xecc6eb60abe93935, five, two)
    else
      Next(155, 359, five, two);
      ghost var five, two := 5 * five, 8 * two;
    if k == 156 then
      if negative then Inverse(156, 362, 0xdbac6c247d62a583df45f746b74abf39,
        0xb41253f1f7042, 0x1a3b2d2ef91631f1, 0x653a5fc2ca1c45, 0xebef728793f7cd9b, five, two)
      else Lower(156, 362, 0x952ab45cfa97a0b2dd945a747bf26183,
        0x11007c76e030d5, 0x3a5b77efca3f6118, 0x44fba339df5701, 0xecc6eb60abe93935, five, two)
    else
      Next(156, 362, five, two);
      ghost var five, two := 5 * five, 4 * two;
    if k == 157 then
      if negative then Inverse(157, 364, 0xafbd2350644eeacfe5d1929ef90898fa,
        0x900ea98e5f368, 0x1a3b2d2ef91631f1, 0x5578c53737b24f, 0xf903c017450ee99c, five, two)
      else Lower(157, 364, 0xba756174393d88df94f971119aeef9e4,
        0x55026e5260f429, 0xe96ddfbf28fd8460, 0x2effc29e802b35, 0x810e3d630a542cf9, five, two)
    else
      Next(157, 364, five, two);
      ghost var five, two := 5 * five, 4 * two;
    if k == 158 then
      if negative then Inverse(158, 366, 0x8c974f73837255731e414218c73a13fb,
        0x2de7e2f45161c3, 0xa72da4c1b59c822b, 0x37cc1b850af5e6, 0xcb3367988dca0aa1, five, two)
      else Lower(158, 366, 0xe912b9d1478ceb177a37cd5601aab85d,
        0x5e83193f592666, 0xcf9e39de8d5314fb, 0x2effc29e802b35, 0x673e97826ea9bd94, five, two)
    else
      Next(158, 366, five, two);
      ghost var five, two := 5 * five, 8 * two;
      if negative then Inverse(159, 369, 0xe0f218b8d25088b8306869c13ec3532c,
        0x59d55432173f7f, 0xcc78559747fdf1a7, 0x61bf1b0c454f9b, 0xde7b3702b414b5e2, five, two)
      else Lower(159, 369, 0x91abb422ccb812eeac62e055c10ab33a,
        0x20e5009633ff, 0x739df0accca3ee, 0x48b7a73fc6a361, 0xff95dbe67e11ccd1, five, two)
  }

  function Entry160(k: nat, negative: bool): (t: nat)
    requires 160 <= k <= 167
    ensures Good(if negative then 0 - k else k, t)
  {
    hide Good, Known, Isolated, Pow;
    Start(20);
    ghost var five, two := 6842277657836020854119773355907793609766904013068924666782559979930620520927053718196475529111921787261962890625, 0x800000000000000000000000000000000000000000000000000000000000000000000000000000000000000000000;
    if k == 160 then
      if negative then Inverse(160, 371, 0xb3f4e093db73a09359ed216765690f56,
        0x51eb8d57e92f63, 0xe912d136d2e0f8c7, 0x27193e04e8863e, 0x6f3d9b815a0a5af1, five, two)
      else Lower(160, 371, 0xb616a12b7fe617aa577b986b314d6009,
        0x1d63f64322e181, 0x52a4090069cf74db, 0x578769c679a088, 0xf61da33e8a3bced9, five, two)
    else
      Next(160, 371, five, two);
      ghost var five, two := 5 * five, 4 * two;
    if k == 161 then
      if negative then Inverse(161, 373, 0x8ff71a0fe2c2e6dc47f0e785eaba72ab,
        0x1120ec8799dd42, 0x3cea9adabc6b4eeb, 0x45a205c6041ddb, 0xf7a4b75602e43be5, five, two)
      else Lower(161, 373, 0xe39c49765fdf9d94ed5a7e85fda0b80b,
        0x67301a6c719741, 0xe81de2b56ff2b3e2, 0x15e1da719e6822, 0x313920a61ba58fc5, five, two)
    else
      Next(161, 373, five, two);
      ghost var five, two := 5 * five, 8 * two;
    if k == 162 then
      if negative then Inverse(162, 376, 0xe65829b3046b0afa0cb4a5a3112a5112,
        0x722ad3269429ed, 0xfdc42e3933fd05ad, 0x56c2f24d9dfb1d, 0xc0d9935e7791b6c2, five, two)
      else Lower(162, 376, 0x8e41ade9fbebc27d14588f13be847307,
        0x2200b885b7ccdd, 0x7a616e45d6f79e37, 0x36b4a21c0c0455, 0xc4e482986e963f14, five, two)
    else
      Next(162, 376, five, two);
      ghost var five, two := 5 * five, 4 * two;
    if k == 163 then
      if negative then Inverse(163, 378, 0xb84687c269ef3bfb3d5d514f40eea742,
        0x15ecb3e0c4f240, 0x3cea9adabc6b4eeb, 0x4bcc985d3b81fd, 0xd29aaac8b7407cfd, five, two)
      else Lower(163, 378, 0xb1d219647ae6b31c596eb2d8ae258fc8,
        0x347a81dab07020, 0x971a0aa49693696d, 0x272db2eb4cdabb, 0x70ce8f7b97190525, five, two)
    else
      Next(163, 378, five, two);
      ghost var five, two := 5 * five, 4 * two;
    if k == 164 then
      if negative then Inverse(164, 380, 0x936b9fcebb25c995cab10dd900beec34,
        0x25159f269da5d9, 0x80cbec43995641e5, 0x3ca3ad1762ce64, 0xd29aaac8b7407cfd, five, two)
      else Lower(164, 380, 0xde469fbd99a05fe36fca5f8ed9aef3bb,
        0x344c5361f8f6c3, 0x787741b6fd64b2cd, 0x5b4bd7d48e5821, 0xd24bba80619aaefa, five, two)
    else
      Next(164, 380, five, two);
      ghost var five, two := 5 * five, 8 * two;
    if k == 165 then
      if negative then Inverse(165, 383, 0xebdf661791d60f56111b495b3464ad21,
        0x44c1d1047e4cc6, 0x953f9be4e0d0d0ab, 0x5c4fdef5437551, 0xc860d2f81383359a, five, two)
      else Lower(165, 383, 0x8aec23d680043bee25de7bb9480d5854,
        0x44b29bf65019cd, 0xfd2fa099d1a8e1da, 0x1bb2e683764234, 0x661595f53b15786d, five, two)
    else
      Next(165, 383, five, two);
      ghost var five, two := 5 * five, 4 * two;
    if k == 166 then
      if negative then Inverse(166, 385, 0xbcb2b812db11a5de7415d448f6b6f0e7,
        0x90a5a3725073f, 0x188799346b879aef, 0x5e3837c314a22c, 0xffa6135ffd7bf8ab, five, two)
      else Lower(166, 385, 0xada72ccc20054ae9af561aa79a10ae6a,
        0x36d928b494f8b3, 0xa1b7114c29b1b7b6, 0x229fa02453d2c1, 0x661595f53b15786d, five, two)
    else
      Next(166, 385, five, two);
      ghost var five, two := 5 * five, 4 * two;
      if negative then Inverse(167, 387, 0x96f5600f15a7b7e529ab103a5ef8c0b9,
        0x3532952bc408c5, 0xb46d9c90fe231e1a, 0x463bc17af3f48e, 0xee353b1be2a03589, five, two)
      else Lower(167, 387, 0xd910f7ff28069da41b2ba1518094da04,
        0x36d928b494f8b3, 0x815f4109baf492f8, 0x38fdd25a8e059e, 0x866d6637a9d29d2b, five, two)
  }

  function Entry168(k: nat, negative: bool): (t: nat)
    requires 168 <= k <= 175
    ensures Good(if negative then 0 - k else k, t)
  {
    hide Good, Known, Isolated, Pow;
    Start(21);
    ghost var five, two := 2672764710092195646140536467151481878815196880105048697961937492160398640987130358670498253559344448149204254150390625, 0x40000000000000000000000000000000000000000000000000000000000000000000000000000000000000000000000000;
    if k == 168 then
      if negative then Inverse(168, 390, 0xf18899b1bc3f8ca1dc44e6c3cb279ac1,
        0x6c113756184912, 0xe514642d6601d187, 0x11742f8ed3f9ab, 0x24ff9b34d8e3a99f, five, two)
      else Lower(168, 390, 0x87aa9aff7904228690fb44d2f05d0842,
        0x6968fe1d37d79, 0x18dd05925c0481c1, 0x3f6bcf4c792c5f, 0xef59560257145fa0, five, two)
    else
      Next(168, 390, five, two);
      ghost var five, two := 5 * five, 4 * two;
    if k == 169 then
      if negative then Inverse(169, 392, 0xc13a148e3032d6e7e36a52363c1faf01,
        0x2015f466ea7137, 0x5504cd72fc2b3399, 0x45d0be3b4fe6ac, 0xb8fe08083c72501b, five, two)
      else Lower(169, 392, 0xa99541bf57452b28353a1607ac744a53,
        0x463516da2f163e, 0xd3f7cf933d88384d, 0x254447710da2e1, 0x7083b949cd763149, five, two)
    else
      Next(169, 392, five, two);
      ghost var five, two := 5 * five, 4 * two;
    if k == 170 then
      if negative then Inverse(170, 394, 0x9a94dd3e8cf578b982bb74f8301958ce,
        0x426dd7c66c7dba, 0xdc0638309879f573, 0x2378dadbcdda29, 0x757d52a96e4aef2e, five, two)
      else Lower(170, 394, 0xd3fa922f2d1675f242889b8997915ce8,
        0x69385aa0b7b37a, 0xfe245821bcfa4b19, 0x114de01fb0be1, 0x29cba3345e0d541, five, two)
    else
      Next(170, 394, five, two);
      ghost var five, two := 5 * five, 8 * two;
    if k == 171 then
      if negative then Inverse(171, 397, 0xf7549530e188c128d12bee59e68ef47c,
        0x6162d4b10b214b, 0xc9997292d9a99d53, 0x43550429dc5572, 0x8b6270c2a7cfb685, five, two)
      else Lower(171, 397, 0x847c9b5d7c2e09b769956135febada11,
        0x2c2665c8dc30df, 0xaa9e8a23e6c6e8be, 0x18c75de961b622, 0x5fc22ddf0ae6c963, five, two)
    else
      Next(171, 397, five, two);
      ghost var five, two := 5 * five, 4 * two;
    if k == 172 then
      if negative then Inverse(172, 399, 0xc5dd44271ad3cdba40eff1e1853f29fd,
        0x5107ac3745f781, 0xd1acfc75c4122292, 0x14ec0b28e85fcf, 0x362377ed4771618f, five, two)
      else Lower(172, 399, 0xa59bc234db398c2543fab9837e699095,
        0xfe15b6a15aae7, 0x3118947b5a216805, 0x4dd3c63189f23c, 0xf09cf0396feefacb, five, two)
    else
      Next(172, 399, five, two);
      ghost var five, two := 5 * five, 4 * two;
    if k == 173 then
      if negative then Inverse(173, 401, 0x9e4a9cec15763e2e9a598e4e043287fe,
        0x206978161bfc9a, 0x68d67e3ae2091149, 0x3a0cd25cdebdeb, 0xbbc3eaeea39ffc8a, five, two)
      else Lower(173, 401, 0xcf02b2c21207ef2e94f967e45e03f4bb,
        0x62dbba9eced312, 0xf481b52c188238a3, 0x1374f18c627c8f, 0x301f633eaffc988f, five, two)
    else
      Next(173, 401, five, two);
      ghost var five, two := 5 * five, 8 * two;
    if k == 174 then
      if negative then Inverse(174, 404, 0xfd442e4688bd304a908f4a166d1da663,
        0x5e3c2357a96eed, 0xbe810d1f87ae414b, 0x2bbb02c42819d2, 0x5867b11589b374c3, five, two)
      else Lower(174, 404, 0x8161afb94b44f57d1d1be0eebac278f5,
        0x1138b3b6f27986, 0x44267f21e4e57b8d, 0x3ed75050077bbf, 0xf8ae1bb1b619cd5e, five, two)
    else
      Next(174, 404, five, two);
      ghost var five, two := 5 * five, 4 * two;
      if negative then Inverse(175, 406, 0xca9cf1d206fdc03ba6d90811f0e4851c,
        0x3281209381551b, 0x7f9fb30c7d797faa, 0x372fa8d7ed69e6, 0x8b745f1a88b0db07, five, two)
      else Lower(175, 406, 0xa1ba1ba79e1632dc6462d92a69731732,
        0x2b0dc1495e2fcf, 0x884cfe43c9caf71a, 0x2c562ef1399904, 0x8c5cbdc1d22d9c47, five, two)
  }

  function Entry176(k: nat, negative: bool): (t: nat)
    requires 176 <= k <= 183
    ensures Good(if negative then 0 - k else k, t)
  {
    hide Good, Known, Isolated, Pow;
    Start(22);
    ghost var five, two := 1044048714879763924273647057481047608912186281291034647641381832875155719135597796355663380296618925058282911777496337890625, 0x1000000000000000000000000000000000000000000000000000000000000000000000000000000000000000000000000000000;
    if k == 176 then
      if negative then Inverse(176, 408, 0xa21727db38cb002fb8ada00e5a506a7c,
        0x4d0fc71babaabc, 0xf36aba0aefbba3f7, 0xbf93d05ab7fbd, 0x25d242ca24fa0d99, five, two)
      else Lower(176, 408, 0xca28a291859bbf937d7b8f7503cfdcfe,
        0x1ff8358d0fc98e, 0x50f7d8a910ffa66d, 0x5763f03a97c8d3, 0xdd54966ae32d42b4, five, two)
    else
      Next(176, 408, five, two);
      ghost var five, two := 5 * five, 4 * two;
    if k == 177 then
      if negative then Inverse(177, 410, 0x81ac1fe293d599bfc6f14cd848405530,
        0x11ce9a6d116ee5, 0x464f3f35452d6c64, 0x2fe4f416adfef4, 0xbd1b4df2b8e243fd, five, two)
      else Lower(177, 410, 0xfcb2cb35e702af785cda735244c3d43e,
        0x73a0709aaf69e9, 0xea465bc17977dfd9, 0x23b3eaba07f206, 0x4856aa6f577892ff, five, two)
    else
      Next(177, 410, five, two);
      ghost var five, two := 5 * five, 8 * two;
    if k == 178 then
      if negative then Inverse(178, 413, 0xcf79cc9db955c2cc7182148d4066eeb4,
        0x239d34da22ddca, 0x57e30f029678c77d, 0x4d7db09bb18cbb, 0xbf3a9de29b8f9708, five, two)
      else Lower(178, 413, 0x9defbf01b061adab3a0888136afa64a7,
        0xf84a420e8dfb8, 0x324e8b3dc8e79af1, 0x49bd26b02afd57, 0xef0c1e7f94fab10b, five, two)
    else
      Next(178, 413, five, two);
      ghost var five, two := 5 * five, 4 * two;
    if k == 179 then
      if negative then Inverse(179, 415, 0xa5fb0a17c777cf09f468107100525890,
        0x3b7cd7532fb686, 0xb7805df3e4409301, 0x4d7db09bb18cbb, 0xef09455b42737cca, five, two)
      else Lower(179, 415, 0xc56baec21c7a1916088aaa1845b8fdd0,
        0x1365cd292317a6, 0x324e8b3dc8e79af1, 0x61041ce1884ceb, 0xfb9b25e36844e12a, five, two)
    else
      Next(179, 415, five, two);
      ghost var five, two := 5 * five, 4 * two;
    if k == 180 then
      if negative then Inverse(180, 417, 0x84c8d4dfd2c63f3b29ecd9f40041e073,
        0x274b130d36985b, 0x97828050c2bd28b3, 0x251a280fbf5065, 0x8f0fac71dde93de0, five, two)
      else Lower(180, 417, 0xf6c69a72a3989f5b8aad549e57273d45,
        0x6f8ce936763351, 0xe770ac6200dc201d, 0x3f0e684f9e7832, 0x82d395e66f0cea3b, five, two)
    else
      Next(180, 417, five, two);
      ghost var five, two := 5 * five, 8 * two;
    if k == 181 then
      if negative then Inverse(181, 420, 0xd47487cc8470652b7647c3200069671f,
        0x632749a7f8bd5b, 0xeef3b07709444b33, 0x76ba19cbfdce1, 0x11e1f58e3bbd27bc, five, two)
      else Lower(181, 420, 0x9a3c2087a63f639936ac54e2f678864b,
        0x87ba65f843f83, 0x1c290939e1d3cd6a, 0x4a942f33c3f67d, 0xf792a72fed2fedc1, five, two)
    else
      Next(181, 420, five, two);
      ghost var five, two := 5 * five, 4 * two;
    if k == 182 then
      if negative then Inverse(182, 422, 0xa9f6d30a038d1dbc5e9fcf4ccd211f4c,
        0x53c668b13a1c03, 0xfc5d28a1b6122900, 0x76ba19cbfdce1, 0x165a72f1caac71ab, five, two)
      else Lower(182, 422, 0xc0cb28a98fcf3c7f84576a1bb416a7dd,
        0x5b8b7bf2cc7583, 0xf31d614fc0ac6d44, 0xc484f054dcdfd, 0x209e4f1a0e574de7, five, two)
    else
      Next(182, 422, five, two);
      ghost var five, two := 5 * five, 4 * two;
      if negative then Inverse(183, 424, 0x87f8a8d4cfa417c9e54ca5d70a80e5d6,
        0x403eec0ea45807, 0xf1eae1b6c2e81798, 0x1dae8672ff7384, 0x6fc43eb8f55e3857, five, two)
      else Lower(183, 424, 0xf0fdf2d3f3c30b9f656d44a2a11c51d5,
        0x27a19676bf53c3, 0x5432d4157a8872f2, 0x5a27273f61809d, 0xbf88dc54547b4839, five, two)
  }

  function Entry184(k: nat, negative: bool): (t: nat)
    requires 184 <= k <= 191
    ensures Good(if negative then 0 - k else k, t)
  {
    hide Good, Known, Isolated, Pow;
    Start(23);
    ghost var five, two := 407831529249907782919393381828534222231322766129310409234914778466857702787342889201431007928366767600891762413084506988525390625, 0x80000000000000000000000000000000000000000000000000000000000000000000000000000000000000000000000000000000000;
    if k == 184 then
      if negative then Inverse(184, 427, 0xd98ddaee19068c763badd624dd9b0957,
        0xcd9626954119b, 0x1e3d5c36d85d02f3, 0x601cf9115eda77, 0xe23243417ed7f942, five, two)
      else Lower(184, 427, 0x969eb7c47859e7439f644ae5a4b1b325,
        0x17687ebffb3937, 0x4f92300d343ff8e1, 0x39b4f7d1d94b85, 0xc429805c9ac3c24a, five, two)
    else
      Next(184, 427, five, two);
      ghost var five, two := 5 * five, 4 * two;
    if k == 185 then
      if negative then Inverse(185, 429, 0xae0b158b4738705e9624ab50b148d445,
        0x336589a550466c, 0x9732cd1239d10ebf, 0x417ac74b74d179, 0xc0a0afc72d588b96, five, two)
      else Lower(185, 429, 0xbc4665b596706114873d5d9f0dde1fee,
        0x543e97ad5a9cc4, 0xe518c37d3f9bd101, 0x11263c88ef0927, 0x2ea2ecec8f67ea2a, five, two)
    else
      Next(185, 429, five, two);
      ghost var five, two := 5 * five, 4 * two;
    if k == 186 then
      if negative then Inverse(186, 431, 0x8b3c113c38f9f37ede83bc408dd3dd04,
        0x30947d50e29103, 0xb2a407a98b637339, 0x3bd8aea29966a7, 0xdc11ea5e7eeaf010, five, two)
      else Lower(186, 431, 0xeb57ff22fc0c7959a90cb506d155a7ea,
        0x694e3d98b143f5, 0xe518c37d3f9bd101, 0x3b45885f9c5789, 0x80f2a555bf5e4222, five, two)
    else
      Next(186, 431, five, two);
      ghost var five, two := 5 * five, 8 * two;
    if k == 187 then
      if negative then Inverse(187, 434, 0xdec681f9f4c31f316405fa00e2ec94d4,
        0x4dba621b041b38, 0xb2a407a98b637339, 0x3bd8aea29966a7, 0x898b327b0f52d60a, five, two)
      else Lower(187, 434, 0x9316ff75dd87cbd809a7f12442d588f2,
        0x3a6835737b3f88, 0xcb4ea26c1955c3c7, 0x3b45885f9c5789, 0xce510889323069d0, five, two)
    else
      Next(187, 434, five, two);
      ghost var five, two := 5 * five, 4 * two;
    if k == 188 then
      if negative then Inverse(188, 436, 0xb23867fb2a35b28de99e619a4f23aa43,
        0x3e2eb4e269af60, 0xb2a407a98b637339, 0x1cc15431648ef7, 0x529bfb450d75d1f0, five, two)
      else Lower(188, 436, 0xb7dcbf5354e9bece0c11ed6d538aeb2f,
        0xe9a0d5cdecfe2, 0x28a953af38445a5b, 0x4d54e16cff876f, 0xd7583ae07cc05beb, five, two)
    else
      Next(188, 436, five, two);
      ghost var five, two := 5 * five, 4 * two;
    if k == 189 then
      if negative then Inverse(189, 438, 0x8e938662882af53e547eb47b7282ee9c,
        0x31bef71b87bf80, 0xb2a407a98b637339, 0x1cc15431648ef7, 0x6742fa1650d3466c, five, two)
      else Lower(189, 438, 0xe5d3ef282a242e818f1668c8a86da5fa,
        0x248121682d07b5, 0x5152a75e7088b4b6, 0x561f1c2453e756, 0xbfdb8abaf7650fb1, five, two)
    else
      Next(189, 438, five, two);
      ghost var five, two := 5 * five, 8 * two;
    if k == 190 then
      if negative then Inverse(190, 441, 0xe41f3d6a7377eeca20caba5f1d9e4a93,
        0x220bb4d8f21635, 0x4c69a491fb9750cf, 0x5b8e5d3bbb3423, 0xcd7d5d2de09f68d6, five, two)
      else Lower(190, 441, 0x8fa475791a569d10f96e017d694487bc,
        0x109cf5899748dd, 0x3b3746b2558fd5b7, 0x423af045be287e, 0xec124c132d56cdaf, five, two)
    else
      Next(190, 441, five, two);
      ghost var five, two := 5 * five, 4 * two;
      if negative then Inverse(191, 443, 0xb67f6455292cbf081a3bc84c17b1d542,
        0x4852ea37eeff02, 0xcae7e3b0fe0d8ed1, 0x1fedf495ecace9, 0x5994299475f3829d, five, two)
      else Lower(191, 443, 0xb38d92d760ec445537c981dcc395a9ac,
        0x3a1721e969c048, 0xa5a5696880fdd491, 0x211d7822df143f, 0x5e6db807abbc5246, five, two)
  }

  function Entry192(k: nat, negative: bool): (t: nat)
    requires 192 <= k <= 199
    ensures Good(if negative then 0 - k else k, t)
  {
    hide Good, Known, Isolated, Pow;
    Start(24);
    ghost var five, two := 159309191113245227702888039776771180559110455519261878607388585338616290151305816094308987472018268594098344692611135542392730712890625, 0x2000000000000000000000000000000000000000000000000000000000000000000000000000000000000000000000000000000000000000;
    if k == 192 then
      if negative then Inverse(192, 445, 0x91ff83775423cc067b6306a34627ddcf,
        0x29b38c5257de5e, 0x923e06a2ba0088b7, 0x2b022302ad6aa3, 0x96d364a1c9e0822d, five, two)
      else Lower(192, 445, 0xe070f78d3927556a85bbe253f47b1417,
        0x69ba6286a34499, 0xf13063083d947cc9, 0x211d7822df143f, 0x4b8af99fbc96a838, five, two)
    else
      Next(192, 445, five, two);
      ghost var five, two := 5 * five, 8 * two;
    if k == 193 then
      if negative then Inverse(193, 448, 0xe998d258869facd72bd1a438703fc94b,
        0x42b8e083bfca30, 0x923e06a2ba0088b7, 0x33593f132563e9, 0x708bdfb9756c6273, five, two)
      else Lower(193, 448, 0x8c469ab843b8956293956d7478ccec8e,
        0x12f379dcb1cd12, 0x452ba83201f5a2a7, 0x43d36ecd3faa75, 0xf78fb475f835825a, five, two)
    else
      Next(193, 448, five, two);
      ghost var five, two := 5 * five, 4 * two;
    if k == 194 then
      if negative then Inverse(194, 450, 0xbae0a846d21957128974836059cca109,
        0x3132049b87adb, 0x86c89ba51250991, 0x5ba151a4ebcdfd, 0xfb0b76b190c38a4a, five, two)
      else Lower(194, 450, 0xaf58416654a6babb387ac8d1970027b2,
        0x979bcee58e689, 0x1bab101400c8a776, 0x4f8c1228d29c0f, 0xe846502de8f8cdd3, five, two)
    else
      Next(194, 450, five, two);
      ghost var five, two := 5 * five, 4 * two;
    if k == 195 then
      if negative then Inverse(195, 452, 0x9580869f0e7aac0ed45d35e6ae3d4da0,
        0x3112b99bca5c27, 0xa80f97455a7fda27, 0x24c63874e870bb, 0x7df0e6a1c4c6aa52, five, two)
      else Lower(195, 452, 0xdb2e51bfe9d0696a06997b05fcc0319e,
        0x620f5b389214ee, 0xe510ad5a00914735, 0x32aeaa90d59441, 0x76646d09fd6ea95d, five, two)
    else
      Next(195, 452, five, two);
      ghost var five, two := 5 * five, 8 * two;
    if k == 196 then
      if negative then Inverse(196, 455, 0xef340a98172aace486fb897116c87c34,
        0x4e845c2c76f9d8, 0xa80f97455a7fda27, 0x38674f80062f31, 0x78ba75f6719c20fd, five, two)
      else Lower(196, 455, 0x88fcf317f22241e2441fece3bdf81f03,
        0x447655bdbbf992, 0xffe193ab635a2d67, 0xd37e7a4644e5, 0x316784a641e6b02, five, two)
    else
      Next(196, 455, five, two);
      ghost var five, two := 5 * five, 4 * two;
    if k == 197 then
      if negative then Inverse(197, 457, 0xbf5cd54678eef0b6d262d45a78a0635d,
        0x508120ad8636cc, 0xd764b89443639351, 0x122383aa5250bf, 0x3087f2a77e952234, five, two)
      else Lower(197, 457, 0xab3c2fddeeaad25ad527e81cad7626c3,
        0x1f92bacb3cb40c, 0x5e67b19a27224997, 0x4346edf9d8c091, 0xc929445ddebe3f36, five, two)
    else
      Next(197, 457, five, two);
      ghost var five, two := 5 * five, 4 * two;
    if k == 198 then
      if negative then Inverse(198, 459, 0x991711052d8bf3c5751bdd152d4d1c4a,
        0x4b496924365c49, 0xfbcaae91e2536cf8, 0x122383aa5250bf, 0x3ca9ef515e3a6ac1, five, two)
      else Lower(198, 459, 0xd60b3bd56a5586f18a71e223d8d3b074,
        0x7e4aeb2cf2d03, 0x12e189eba16d41eb, 0x63962cecf47c7b, 0xee36e7da902b434e, five, two)
    else
      Next(198, 459, five, two);
      ghost var five, two := 5 * five, 8 * two;
      if negative then Inverse(199, 462, 0xf4f1b4d515acb93bee92fb5515482d44,
        0x4b496924365c49, 0x9d5ead1b2d74241b, 0x4a31ab59711ef7, 0x9b15f0c81319b39e, five, two)
      else Lower(199, 462, 0x85c7056562757456f6872d5667844e49,
        0x7e4aeb2cf2d03, 0x1e35a97902486978, 0x41339d97267eae, 0xf98b0767f1066adb, five, two)
  }

  function Entry200(k: nat, negative: bool): (t: nat)
    requires 200 <= k <= 207
    ensures Good(if negative then 0 - k else k, t)
  {
    hide Good, Known, Isolated, Pow;
    Start(25);
    ghost var five, two := 62230152778611417071440640537801242405902521687211671331011166147896988340353834411839448231257136169569665895551224821247160434722900390625, 0x100000000000000000000000000000000000000000000000000000000000000000000000000000000000000000000000000000000000000000000;
    if k == 200 then
      if negative then Inverse(200, 464, 0xc3f490aa77bd60fcbedbfc4411068a9c,
        0x4aa190ddc0044b, 0xc2ffcb23a50d58c4, 0x49c1c5d52239a3, 0xc0b70ed08ab2e847, five, two)
      else Lower(200, 464, 0xa738c6bebb12d16cb428f8ac016561db,
        0x2777697e0be10f, 0x78d6a5e40921a5e0, 0x4b8005a2db7142, 0xe72a93ead7808e2f, five, two)
    else
      Next(200, 464, five, two);
      ghost var five, two := 5 * five, 4 * two;
    if k == 201 then
      if negative then Inverse(201, 466, 0x9cc3a6eec6311a63cbe3303674053bb0,
        0x4aa190ddc0044b, 0xf3bfbdec8e50aef5, 0x3b016b10e82e1c, 0xc0b70ed08ab2e847, five, two)
      else Lower(201, 466, 0xd106f86e69d785c7e13336d701beba52,
        0xdbb3564f1437, 0x21a24c5d88d591d, 0x67c9b3b68fc9e0, 0xfe38ef52f057a627, five, two)
    else
      Next(201, 466, five, two);
      ghost var five, two := 5 * five, 8 * two;
    if k == 202 then
      if negative then Inverse(202, 469, 0xfad2a4b13d1b5d6c796b805720085f81,
        0x6f6ee2c27afdcf, 0xe37767a9ede69110, 0x357464c5dce0f6, 0x6d1db32f4640e5cf, five, two)
      else Lower(202, 469, 0x82a45b450226b39cecc0024661173473,
        0x18fd052f25143e, 0x61ee9ac6bc6fba2b, 0x2daf89aebec369, 0xb30c0f5eb474ab6e, five, two)
    else
      Next(202, 469, five, two);
      ghost var five, two := 5 * five, 4 * two;
    if k == 203 then
      if negative then Inverse(203, 471, 0xc8a883c0fdaf7df06122cd128006b2cd,
        0x575644ec15197e, 0xded967043d342e57, 0x3f3da715af352d, 0xa15d8c741108275a, five, two)
      else Lower(203, 471, 0xa34d721642b0608427f002d7f95d0190,
        0xc7e8297928a1f, 0x272c3de9182cb0de, 0x467c0f225c051a, 0xdcfd460d944cebd3, five, two)
    else
      Next(203, 471, five, two);
      ghost var five, two := 5 * five, 4 * two;
    if k == 204 then
      if negative then Inverse(204, 473, 0xa086cfcd97bf97f380e8a40eccd228a4,
        0x3cd729e45539ab, 0xc20d058572b01b4f, 0x194bdc6f12e212, 0x50aec63a088413ad, five, two)
      else Lower(204, 473, 0xcc20ce9bd35c78a531ec038df7b441f4,
        0x3e788cf5dcb29b, 0x9cb0f7a460b2c378, 0x49d84f72aa6ed2, 0xb9385349db16abe3, five, two)
    else
      Next(204, 473, five, two);
      ghost var five, two := 5 * five, 4 * two;
    if k == 205 then
      if negative then Inverse(205, 475, 0x806bd9714632dff600ba1cd8a3db53b6,
        0x113a347714d259, 0x44aef2efdecd0bbf, 0x3180d4570d113d, 0xc55d06528e2d3f24, five, two)
      else Lower(205, 475, 0xff290242c83396ce7e67047175a15271,
        0x31b25a5798f502, 0x63b873b6ec18d6f7, 0x553811ef782b09, 0xaaffbf25ddfba9d8, five, two)
    else
      Next(205, 475, five, two);
      ghost var five, two := 5 * five, 8 * two;
    if k == 206 then
      if negative then Inverse(206, 478, 0xcd795be87051665667902e276c921f8b,
        0x1b9053f1baea28, 0x44aef2efdecd0bbf, 0x5ad95241a57079, 0xe260905b670fd915, five, two)
      else Lower(206, 478, 0x9f79a169bd203e410f0062c6e984d386,
        0x9c173fae18e5f, 0x1f522741601a9307, 0x4b769df4969caa, 0xf2470a94cfde7cb9, five, two)
    else
      Next(206, 478, five, two);
      ghost var five, two := 5 * five, 4 * two;
      if negative then Inverse(207, 480, 0xa46116538d0deb7852d9be85f074e608,
        0x160d0ff4958820, 0x44aef2efdecd0bbf, 0x4a4f864a354a61, 0xe7757e3e59ba068b, five, two)
      else Lower(207, 480, 0xc75809c42c684dd152c07b78a3e60868,
        0x604406db94a48f, 0xf7405a42207226d2, 0x17be617a966e5a, 0x3cfbde9e5003ed5b, five, two)
  }

  function Entry208(k: nat, negative: bool): (t: nat)
    requires 208 <= k <= 215
    ensures Good(if negative then 0 - k else k, t)
  {
    hide Good, Known, Isolated, Pow;
    Start(26);
    ghost var five, two := 24308653429145084793531500210078610314805672534067059113676236776522261070450716567124784465334818816238150740449697195799672044813632965087890625, 0x4000000000000000000000000000000000000000000000000000000000000000000000000000000000000000000000000000000000000000000000000;
    if k == 208 then
      if negative then Inverse(208, 482, 0x8380dea93da4bc604247cb9e59f71e6d,
        0x7305b7f57ac73, 0x1bfd501c4011cd0c, 0x3b72d1d4f76eb4, 0xe7757e3e59ba068b, five, two)
      else Lower(208, 482, 0xf92e0c3537826145a7709a56ccdf8a82,
        0x658e5ec19cca92, 0xd0abe804369b212b, 0x3b5bf3b27813e1, 0x79f7bd3ca007dab6, five, two)
    else
      Next(208, 482, five, two);
      ghost var five, two := 5 * five, 8 * two;
    if k == 209 then
      if negative then Inverse(209, 485, 0xd267caa862a12d66d072df63c324fd7b,
        0x423ffc28a9e5bb, 0xa136614d14f9f079, 0x33df4529fa8cd5, 0x7e39bd29c4e3b02a, five, two)
      else Lower(209, 485, 0x9bbcc7a142b17ccb88a66076400bb691,
        0x32c72f60ce6549, 0xa6efecd02baf4dbc, 0x3d8124c6e27f87, 0xca337f453523e1fd, five, two)
    else
      Next(209, 485, five, two);
      ghost var five, two := 5 * five, 4 * two;
    if k == 210 then
      if negative then Inverse(210, 487, 0xa8530886b54dbdebd9f57f830283fdfc,
        0x102023d4ab72ed, 0x310cc15c19440c32, 0x477e42aa9e33d0, 0xd976d63039b12005, five, two)
      else Lower(210, 487, 0xc2abf989935ddbfe6acff893d00ea435,
        0x6031640e92bd73, 0xfcfe7384a8837446, 0x4ed9446aba9e7d, 0xcf609fde031ce155, five, two)
    else
      Next(210, 487, five, two);
      ghost var five, two := 5 * five, 4 * two;
    if k == 211 then
      if negative then Inverse(211, 489, 0x86a8d39ef77164bcae5dff9c02033197,
        0x204047a956e5da, 0x7a9fe3663f2a1e7d, 0x2cb90b4c1dee0d, 0xaa0b5ccb3c6d9f41, five, two)
      else Lower(211, 489, 0xf356f7ebf83552fe0583f6b8c4124d43,
        0x3d1ac9c22b75f2, 0x809146cc403eed13, 0x4ed9446aba9e7d, 0xa5e6e64b35b0b444, five, two)
    else
      Next(211, 489, five, two);
      ghost var five, two := 5 * five, 8 * two;
    if k == 212 then
      if negative then Inverse(212, 492, 0xd77485cb25823ac77d633293366b828b,
        0x3d94425df70fec, 0x9255a018bdcbdedf, 0x68d7272fb9a015, 0xf9239c043afbfec9, five, two)
      else Lower(212, 492, 0x98165af37b2153dec3727a337a8b704a,
        0x443e31348c18b6, 0xe5bd2caf91650775, 0xc12f7e26938e1, 0x28a5b45ba23a18b1, five, two)
    else
      Next(212, 492, five, two);
      ghost var five, two := 5 * five, 4 * two;
    if k == 213 then
      if negative then Inverse(213, 494, 0xac5d37d5b79b6239311c2875c522ced5,
        0x4fe59fea2b8faf, 0xed5495577e018549, 0x114df520b439aa, 0x3366fdf5be980ff5, five, two)
      else Lower(213, 494, 0xbe1bf1b059e9a8d6744f18c0592e4c5c,
        0x3b51efe5934d41, 0x9fc29b8a1683ad07, 0x3c5ed76c0e1c65, 0xa296d16e88e862c4, five, two)
    else
      Next(213, 494, five, two);
      ghost var five, two := 5 * five, 4 * two;
    if k == 214 then
      if negative then Inverse(214, 496, 0x89e42caaf9491b60f41686c49db57244,
        0x26e16ed126508a, 0x905dc9a69e4cca9f, 0x360ca1a9fb9b99, 0xc8b05fb9aba28d34, five, two)
      else Lower(214, 496, 0xeda2ee1c7064130c1162def06f79df73,
        0x75da32264a7f27, 0xfdeb3eed78fca7cd, 0x3b9529c732010a, 0x805fba68f5b0aec5, five, two)
    else
      Next(214, 496, five, two);
      ghost var five, two := 5 * five, 8 * two;
      if negative then Inverse(215, 499, 0xdca04777f541c567ecf0d7a0fc5583a0,
        0x6579199a9da68f, 0xeb7c3c4c807a624d, 0x159ea710cb0b0a, 0x322c17ee6ae8a34d, five, two)
      else Lower(215, 499, 0x9485d4d1c63e8be78addcb5645ac2ba8,
        0x4163a53df85d83, 0xe16a4a273bdb024f, 0x1dca94e3990085, 0x66b2fb872af3bf04, five, two)
  }

  function Entry216(k: nat, negative: bool): (t: nat)
    requires 216 <= k <= 223
    ensures Good(if negative then 0 - k else k, t)
  {
    hide Good, Known, Isolated, Pow;
    Start(27);
    ghost var five, two := 9495567745759798747473242269561957154220965833619944966279779990829008230644811159033118931771413600093027632988162967109246892505325376987457275390625, 0x200000000000000000000000000000000000000000000000000000000000000000000000000000000000000000000000000000000000000000000000000000;
    if k == 216 then
      if negative then Inverse(216, 501, 0xb080392cc4349decbd8d794d96aacfb3,
        0x21443628ffc189, 0x60802105f04d130d, 0x567a9c432c2c28, 0xfadc77a8168b3081, five, two)
      else Lower(216, 501, 0xb9a74a0637ce2ee16d953e2bd7173692,
        0x58fea8e1ee687b, 0xf56e9d4021ce8696, 0x5ff065b34a903, 0x108954e2da99a559, five, two)
    else
      Next(216, 501, five, two);
      ghost var five, two := 5 * five, 4 * two;
    if k == 217 then
      if negative then Inverse(217, 503, 0x8d3360f09cf6e4bd64712dd7abbbd95c,
        0x1a9cf820cc9ad4, 0x60802105f04d130d, 0x3536661a2c6a9f, 0xc0f36c4aafcda4d1, five, two)
      else Lower(217, 503, 0xe8111c87c5c1ba99c8fa8db6ccdd0437,
        0x20bdf55817c1e4, 0x483cc97d9f339c01, 0x5f770a7836d0d7, 0xd29ee686a8cdcd66, five, two)
    else
      Next(217, 503, five, two);
      ghost var five, two := 5 * five, 8 * two;
    if k == 218 then
      if negative then Inverse(218, 506, 0xe1ebce4dc7f16dfbd3e8495912c62894,
        0x1a9c42e5b6d89f, 0x3c4e79eb90169bbf, 0x6a6b61be2d50d4, 0xf12d11ed0f8dedb3, five, two)
      else Lower(218, 506, 0x910ab1d4db9914a01d9c9892400a22a2,
        0x82f7d5605f079, 0x1ce51d6572e1719a, 0x46dc10c90f4869, 0xfa22bf7af0299cc3, five, two)
    else
      Next(218, 506, five, two);
      ghost var five, two := 5 * five, 4 * two;
    if k == 219 then
      if negative then Inverse(219, 508, 0xb4bca50b065abe630fed077a756b53a9,
        0x2fe733fc058973, 0x87b3c7c25065fec0, 0x3a89d79ad5d909, 0xa5d499d7800b0bfb, five, two)
      else Lower(219, 508, 0xb54d5e4a127f59c82503beb6d00cab4b,
        0x28ed72ae1db25d, 0x73947595cb85c668, 0x48f79236ebe94b, 0xce0f5ea2cf9684cd, five, two)
    else
      Next(219, 508, five, two);
      ghost var five, two := 5 * five, 4 * two;
    if k == 220 then
      if negative then Inverse(220, 510, 0x9096ea6f3848984f3ff0d2c85def7621,
        0x2fe733fc058973, 0xa9a0b9b2e47f7e70, 0x3869507b1295eb, 0xc7c18bc814248bab, five, two)
      else Lower(220, 510, 0xe2a0b5dc971f303a2e44ae64840fd61d,
        0xc743174db4b73, 0x1c22cd3950988faf, 0x6901b1bfba2039, 0xed3b6c8ca9529c28, five, two)
    else
      Next(220, 510, five, two);
      ghost var five, two := 5 * five, 8 * two;
    if k == 221 then
      if negative then Inverse(221, 513, 0xe757dd7ec07426e5331aeada2fe589cf,
        0x2fe733fc058973, 0x6a04740fcecfaf06, 0x50ad765f4fd461, 0xb28d7491b7949bdd, five, two)
      else Lower(221, 513, 0x8da471a9de737e245ceaecfed289e5d2,
        0x2dd1380ab6ea15, 0xa59e0d400df7ade7, 0x1d5d78cd255aeb, 0x6a25b0b5972ade56, five, two)
    else
      Next(221, 513, five, two);
      ghost var five, two := 5 * five, 4 * two;
    if k == 222 then
      if negative then Inverse(222, 515, 0xb913179899f6858428e2557b59846e3f,
        0x491da96ab90ca3, 0xca4584e29cf0d362, 0x16b0be8d520643, 0x3ec59d44e816622d, five, two)
      else Lower(222, 515, 0xb10d8e1456105dad7425a83e872c5f47,
        0x12cbac35f71140, 0x365a59312106e8d9, 0x47a4ab29de8197, 0xcf2d5e11d88fd5f4, five, two)
    else
      Next(222, 515, five, two);
      ghost var five, two := 5 * five, 4 * two;
      if negative then Inverse(223, 517, 0x940f4613ae5ed136871b7795e136be99,
        0x17b307b445d1d5, 0x51f42fdb1b4765ef, 0x430ff281024737, 0xe7e7e27d6d2884f2, five, two)
      else Lower(223, 517, 0xdd50f1996b947518d12f124e28f77719,
        0x4b2eb0d7dc450, 0xadedea36d0161c5, 0x6d2cae064ee363, 0xfc916071d0f61a07, five, two)
  }

  function Entry224(k: nat, negative: bool): (t: nat)
    requires 224 <= k <= 231
    ensures Good(if negative then 0 - k else k, t)
  {
    hide Good, Known, Isolated, Pow;
    Start(28);
    ghost var five, two := 3709206150687421385731735261547639513367564778757791002453039058917581340095629358997312082723208437536338919136001159027049567384892725385725498199462890625, 0x10000000000000000000000000000000000000000000000000000000000000000000000000000000000000000000000000000000000000000000000000000000000;
    if k == 224 then
      if negative then Inverse(224, 520, 0xece53cec4a314ebda4f8bf5635246428,
        0x25eb3f86d61c88, 0x51f42fdb1b4765ef, 0x727601e98deae1, 0xf762296046529282, five, two)
      else Lower(224, 520, 0x8a5296ffe33cc92f82bd6b70d99aaa6f,
        0x2efd2e86e9ab2, 0xadedea36d0161c5, 0x44a582b1f22631, 0xfe1833806e104ad3, five, two)
    else
      Next(224, 520, five, two);
      ghost var five, two := 5 * five, 4 * two;
    if k == 225 then
      if negative then Inverse(225, 522, 0xbd8430bd0827723150c6ff782a838353,
        0x4b8e641edaca26, 0xcc1faabc49f44e7b, 0x260f4cfe3ed3fd, 0x66d2a2459f385798, five, two)
      else Lower(225, 522, 0xace73cbfdc0bfb7b636cc64d1001550b,
        0x7578f451482bd, 0x15bdbd46da02c38a, 0x54fbb7826cff97, 0xfba6e1cf72b32ff3, five, two)
    else
      Next(225, 522, five, two);
      ghost var five, two := 5 * five, 4 * two;
    if k == 226 then
      if negative then Inverse(226, 524, 0x979cf3ca6cec5b5aa705992ceecf9c42,
        0x3c71e9b248a1b8, 0xcc1faabc49f44e7b, 0x260f4cfe3ed3fd, 0x80874ad707066d7e, five, two)
      else Lower(226, 524, 0xd8210befd30efa5a3c47f7e05401aa4e,
        0x24b5cc59668db1, 0x56f6f51b680b0e28, 0x4a79bc956ff3c0, 0xb06ddd5e07671151, five, two)
    else
      Next(226, 524, five, two);
      ghost var five, two := 5 * five, 8 * two;
    if k == 227 then
      if negative then Inverse(227, 527, 0xf294b943e17a2bc43e6f5b7b17b2939d,
        0x4d762fab41cfdf, 0xa37e4c2b38a2b36d, 0x4ac7044db98015, 0x9dd3eeee58ed5e4e, five, two)
      else Lower(227, 527, 0x8714a775e3e95c7865acfaec34810a71,
        0x401c61201f1cea, 0xf3004a781841f6a3, 0x37543b7ec28aa1, 0xd1b713eb0fd483fa, five, two)
    else
      Next(227, 527, five, two);
      ghost var five, two := 5 * five, 4 * two;
    if k == 228 then
      if negative then Inverse(228, 529, 0xc21094364dfb5636985915fc12f542e4,
        0x4dff9ebdf6aca1, 0xcdc876853eb8b590, 0x4bd9e273233999, 0xc81e19485f036071, five, two)
      else Lower(228, 529, 0xa8d9d1535ce3b3967f1839a741a14d0d,
        0x200e30900f8e75, 0x613350fcd680c90e, 0x3a2f1b54bf766e, 0xb06ddd5e07671151, five, two)
    else
      Next(228, 529, five, two);
      ghost var five, two := 5 * five, 4 * two;
    if k == 229 then
      if negative then Inverse(229, 531, 0x9b407691d7fc44f879e0de63425dcf1d,
        0x1b7c9d575f5a0, 0x5aa5d3cdfb5551f, 0x4c47d4e880b701, 0xfb9036e9aeb18dd5, five, two)
      else Lower(229, 531, 0xd31045a8341ca07c1ede48111209a050,
        0x3ea10fad47334b, 0x97ed270f02e25b21, 0x5a3d4be4cf04e3, 0xdae75848b186484c, five, two)
    else
      Next(229, 531, five, two);
      ghost var five, two := 5 * five, 8 * two;
    if k == 230 then
      if negative then Inverse(230, 534, 0xf867241c8cc6d4c0c30163d203c94b62,
        0x4f5f7368bb7121, 0xa399cb3688daf868, 0x4c9fca1331e821, 0x9def6df9a925a349, five, two)
      else Lower(230, 534, 0x83ea2b892091e44d934aed0aab460432,
        0x344679187444b2, 0xcae554289bd49d1b, 0x1141a5a2b4e2ff, 0x42fa3139aea3ed2b, five, two)
    else
      Next(230, 534, five, two);
      ghost var five, two := 5 * five, 4 * two;
      if negative then Inverse(231, 536, 0xc6b8e9b0709f109a359ab6419ca1091b,
        0x4f5f7368bb7121, 0xcc803e042b11b682, 0x3d4ca1a8f4b9b4, 0x9def6df9a925a349, five, two)
      else Lower(231, 536, 0xa4e4b66b68b65d60f81da84d5617853f,
        0x45881ebb2927b1, 0xd7e6044ea1fa0838, 0x26f416ba2c65ab, 0x78f3b24d57226f39, five, two)
  }

  function Entry232(k: nat, negative: bool): (t: nat)
    requires 232 <= k <= 239
    ensures Good(if negative then 0 - k else k, t)
  {
    hide Good, Known, Isolated, Pow;
    Start(29);
    ghost var five, two := 1448908652612273978801459086542046684909204991702262110333218382389680210974855218358325032313753295912632390287500452744941237259723720853799022734165191650390625, 0x400000000000000000000000000000000000000000000000000000000000000000000000000000000000000000000000000000000000000000000000000000000000000;
    if k == 232 then
      if negative then Inverse(232, 538, 0x9efa548d26e5a6e1c47bc5014a1a6daf,
        0x36da65f1f326d9, 0xb0a896886143527e, 0x310a1aed909490, 0x9def6df9a925a349, five, two)
      else Lower(232, 538, 0xce1de40642e3f4b936251260ab9d668e,
        0xf4a04007e6103, 0x25fa8733b7897066, 0x59bd36d12fcdaa, 0xdeea2100d280263f, five, two)
    else
      Next(232, 538, five, two);
      ghost var five, two := 5 * five, 8 * two;
    if k == 233 then
      if negative then Inverse(233, 541, 0xfe5d54150b090b02d3f93b35435d7c4c,
        0xd4bcbfef1a8af, 0x1ac35cf4ba2fd61d, 0x7e5703cf30fe9b, 0xfe4deda3dbd97370, five, two)
      else Lower(233, 541, 0x80d2ae83e9ce78f3c1d72b7c6b426019,
        0x2d5e53b50984ef, 0xb45084e2d97d1d0e, 0x1dd4738e5254df, 0x768eaa856815e9fd, five, two)
    else
      Next(233, 541, five, two);
      ghost var five, two := 5 * five, 4 * two;
    if k == 234 then
      if negative then Inverse(234, 543, 0xcb7ddcdda26da268a9942f5dcf7dfd09,
        0x4e73ca586a08db, 0xc5644c3099e58b6d, 0x19449a5ca3661f, 0x3f937b68f6f65cdc, five, two)
      else Lower(234, 543, 0xa1075a24e4421730b24cf65b8612f81f,
        0x352343c8651cf7, 0xa8f45b4141c09212, 0x21b6eb980020e3, 0x6b3280e3d0595f01, five, two)
    else
      Next(234, 543, five, two);
      ghost var five, two := 5 * five, 4 * two;
    if k == 235 then
      if negative then Inverse(235, 545, 0xa2cb1717b52481ed54768c4b0c64ca6e,
        0x515803a6fc1182, 0xffd571bbe96a8d3f, 0x50db878ed7ad3, 0xfe4deda3dbd9737, five, two)
      else Lower(235, 545, 0xc94930ae1d529cfcdee033f26797b627,
        0x5bb5456c7e7cdf, 0xe945dbc9f1f63179, 0x21b6eb980020e3, 0x55c200b640477f34, five, two)
    else
      Next(235, 545, five, two);
      ghost var five, two := 5 * five, 4 * two;
    if k == 236 then
      if negative then Inverse(236, 547, 0x823c12795db6ce5776c53d08d6b70858,
        0x37afd2d0a1f4bb, 0xdaecd93ed45325a8, 0x1436e1e3b5eb4c, 0x4f785a4334b3f413, five, two)
      else Lower(236, 547, 0xfb9b7cd9a4a7443c169840ef017da3b1,
        0x6a34dbe19e13de, 0xd81f0ed8b1e7e4d5, 0x21b6eb980020e3, 0x449b33c500393290, five, two)
    else
      Next(236, 547, five, two);
      ghost var five, two := 5 * five, 8 * two;
    if k == 237 then
      if negative then Inverse(237, 550, 0xd0601d8efc57b08bf13b94daf124da26,
        0xb232a29b9fdbf, 0x1b5d9b27da8a64b5, 0x5ee412235367e6, 0xe9282060e8456821, five, two)
      else Lower(237, 550, 0x9d412e0806e88aa58e1f289560ee864e,
        0x43a50fb36a38b8, 0xdc3e09dc92666a17, 0x2b68acc4679569, 0x8d55628de0f0ea62, five, two)
    else
      Next(237, 550, five, two);
      ghost var five, two := 5 * five, 4 * two;
    if k == 238 then
      if negative then Inverse(238, 552, 0xa6b34ad8c9dfc06ff42faa48c0ea481e,
        0x4635c593cea403, 0xd7a4443d62ad1d19, 0x19a91cece6ad07, 0x4ed03c761df92590, five, two)
      else Lower(238, 552, 0xc491798a08a2ad4ef1a6f2bab92a27e2,
        0x4d3b349e1cb1c5, 0xc929ec6354e9b2be, 0x45e8159bf49ca4, 0xb615ceea176cfb65, five, two)
    else
      Next(238, 552, five, two);
      ghost var five, two := 5 * five, 4 * two;
      if negative then Inverse(239, 554, 0x855c3be0a17fcd265cf2eea09a55067f,
        0x382b04763ee99c, 0xd7a4443d62ad1d19, 0x19a91cece6ad07, 0x62844b93a5776ef4, five, two)
      else Lower(239, 554, 0xf5b5d7ec8acb58a2ae10af696774b1db,
        0x18cd2469253c4a, 0x33ae0dc302acc4f5, 0x702f3f6c170017, 0xe9c3dcad1a19c05a, five, two)
  }

  function Entry240(k: nat, negative: bool): (t: nat)
    requires 240 <= k <= 247
    ensures Good(if negative then 0 - k else k, t)
  {
    hide Good, Known, Isolated, Pow;
    Start(30);
    ghost var five, two := 565979942426669522969319955680486986292658199883696136848913430620968832412052819671220715747559881215872027456054864353492670804579578458515243255533277988433837890625, 0x20000000000000000000000000000000000000000000000000000000000000000000000000000000000000000000000000000000000000000000000000000000000000000000;
    if k == 240 then
      if negative then Inverse(240, 557, 0xd5605fcdcf32e1d6fb1e4a9a90880a64,
        0x5b1f9e0904bf23, 0xdaa6f724cb7ceb5f, 0x335239d9cd5a0e, 0x7b255e788ed54ab1, five, two)
      else Lower(240, 557, 0x9991a6f3d6bf1765acca6da1e0a8ef29,
        0x37f298d14fa3d9, 0xba87a43ddc0e15dd, 0x31e4569bc230f9, 0xa657116fad6917e6, five, two)
    else
      Next(240, 557, five, two);
      ghost var five, two := 5 * five, 4 * two;
    if k == 241 then
      if negative then Inverse(241, 559, 0xaab37fd7d8f58178c8e5087ba6d33b83,
        0x4f9ac85e6eca2a, 0xeec3fdae97a311b3, 0x1c7d2b2d5d383d, 0x5573156756948d84, five, two)
      else Lower(241, 559, 0xbff610b0cc6edd3f17fd090a58d32af3,
        0x183908d635cb8, 0x409b6f6095432cb, 0x5f0a18b534038d, 0xfd7d5fb6fe1822b6, five, two)
    else
      Next(241, 559, five, two);
      ghost var five, two := 5 * five, 4 * two;
    if k == 242 then
      if negative then Inverse(242, 561, 0x888f99797a5e012d6d8406c952429603,
        0x28e47dc0dadb24, 0x9950e847410e842f, 0x1c7d2b2d5d383d, 0x6acfdac12c39b0e5, five, two)
      else Lower(242, 561, 0xeff394dcff8a948eddfc4b4cef07f5b0,
        0x1e474b0bc33e6, 0x409b6f6095432cb, 0x76815944b820b1, 0xfcdcc2e3a55a919a, five, two)
    else
      Next(242, 561, five, two);
      ghost var five, two := 5 * five, 8 * two;
    if k == 243 then
      if negative then Inverse(243, 564, 0xda7f5bf590966848af39a475506a899e,
        0x671a8209d91be6, 0xf1999fcc66cafb19, 0x8ea33f4a5c2b7, 0x14e3d4ff8873d1d0, five, two)
      else Lower(243, 564, 0x95f83d0a1fb69cd94abdaf101564f98e,
        0x41d18e053d68bb, 0xe0b4c62a2c67e61b, 0x3d166a4b66e6fc, 0xd08dea5207171aef, five, two)
    else
      Next(243, 564, five, two);
      ghost var five, two := 5 * five, 4 * two;
    if k == 244 then
      if negative then Inverse(244, 566, 0xaecc49914078536d58fae9f773886e18,
        0x4eeab9a604fba2, 0xe727b54ca2911231, 0x8ea33f4a5c2b7, 0x1a1cca3f6a90c644, five, two)
      else Lower(244, 566, 0xbb764c4ca7a4440f9d6d1ad41abe37f1,
        0x54be1cec976fb7, 0xe7735e089aef423c, 0xf459a92d9b9bf, 0x29b5fbaa016b0563, five, two)
    else
      Next(244, 566, five, two);
      ghost var five, two := 5 * five, 4 * two;
    if k == 245 then
      if negative then Inverse(245, 568, 0x8bd6a141006042bde0c8bb2c5c6d24e0,
        0x3f222e1e6a62e8, 0xe727b54ca2911231, 0x8ea33f4a5c2b7, 0x20a3fccf4534f7d5, five, two)
      else Lower(245, 568, 0xea53df5fd18d551384c86189216dc5ed,
        0x661c3d8306dd35, 0xdf1bc54d010d0df5, 0xf459a92d9b9bf, 0x215e62ee6788d11c, five, two)
    else
      Next(245, 568, five, two);
      ghost var five, two := 5 * five, 8 * two;
    if k == 246 then
      if negative then Inverse(246, 571, 0xdfbdcece67006ac967a791e093e1d49a,
        0x4430cc520d0493, 0x9c0b5d353006f577, 0x2e80cea7be5e19, 0x6a6a6f15d8afeee0, five, two)
      else Lower(246, 571, 0x92746b9be2f8552c32fd3cf5b4e49bb4,
        0x34da3d71dc633c, 0xb8c52d5f1974710d, 0x1781c76c643d7f, 0x522dea1422d217d3, five, two)
    else
      Next(246, 571, five, two);
      ghost var five, two := 5 * five, 4 * two;
      if negative then Inverse(247, 573, 0xb2fe3f0b8599ef07861fa7e6dcb4aa15,
        0x3fda6663307ce1, 0xb6a5f8faa632f12f, 0x2e80cea7be5e19, 0x85050adb4edbea98, five, two)
      else Lower(247, 573, 0xb7118682dbb66a773fbc8c33221dc2a1,
        0x4210ccce537c0b, 0xb8c52d5f1974710d, 0x3f257581c987ec, 0xb09b09af91878a17, five, two)
  }

  function Entry248(k: nat, negative: bool): (t: nat)
    requires 248 <= k <= 255
    ensures Good(if negative then 0 - k else k, t)
  {
    hide Good, Known, Isolated, Pow;
    Start(31);
    ghost var five, two := 221085915010417782409890607687690229020569609329568803456606808836315950160958132684070592088890578599950010725021431388083074533038897835357516896692686714231967926025390625, 0x800000000000000000000000000000000000000000000000000000000000000000000000000000000000000000000000000000000000000000000000000000000000000000000000;
    if k == 248 then
      if negative then Inverse(248, 575, 0x8f31cc0937ae58d2d1b2ecb8b0908810,
        0x29c8289433eaaf, 0x9564b643d27bf689, 0x2e80cea7be5e19, 0xa6464d922292e53e, five, two)
      else Lower(248, 575, 0xe4d5e82392a405150fabaf3feaa5334a,
        0x227e120d6eb815, 0x4d2c86d2a6f3bcce, 0x716ce4efaaa1fc, 0xfdc79082387b46e5, five, two)
    else
      Next(248, 575, five, two);
      ghost var five, two := 5 * five, 8 * two;
    if k == 249 then
      if negative then Inverse(249, 578, 0xe51c79a85916f48482b7e12780e7401a,
        0x6bb0484a3817e5, 0xf0a775446c0692c8, 0xb306bc2f70dc9, 0x19012f85d8581855, five, two)
      else Lower(249, 578, 0x8f05b1163ba6832d29cb4d87f2a7400e,
        0x41eab7b21b685f, 0xebf92d46cf2e6ce9, 0x1949ccd328a0b4, 0x5a87513f35ed604b, five, two)
    else
      Next(249, 578, five, two);
      ghost var five, two := 5 * five, 4 * two;
    if k == 250 then
      if negative then Inverse(250, 580, 0xb749faed14125d36cef980ec671f667b,
        0x499081954db2f7, 0xcd7ec779295d066b, 0x2770bae0634e09, 0x6e2c3c5ccbb1d55c, five, two)
      else Lower(250, 580, 0xb2c71d5bca9023f8743e20e9ef511012,
        0x59587ca487132d, 0xffe04ba13c7a716a, 0x6527334ca282d, 0x121b103fd795e00f, five, two)
    else
      Next(250, 580, five, two);
      ghost var five, two := 5 * five, 4 * two;
    if k == 251 then
      if negative then Inverse(251, 582, 0x92a1958a7675175f0bfacd89ec191ec9,
        0x1b4c9ef721ea58, 0x5f528b1c5dab310f, 0x42bd59d7853861, 0xe909d6905c497bc2, five, two)
      else Lower(251, 582, 0xdf78e4b2bd342cf6914da9246b255416,
        0x609ee8d5691cdc, 0xdd5e74ab9032ea6f, 0x1f9c4007f2c8e1, 0x486c40ff5e57803c, five, two)
    else
      Next(251, 582, five, two);
      ghost var five, two := 5 * five, 8 * two;
    if k == 252 then
      if negative then Inverse(252, 585, 0xea9c227723ee8bcb465e15a979c1cadc,
        0x43f24fe62b465d, 0x944868b5809f2ccb, 0x356447df9dc6b4, 0x7484eb482e24bde1, five, two)
      else Lower(252, 585, 0x8bab8eefb6409c1a1ad089b6c2f7548e,
        0x3409b75400cf43, 0xbec27a0008648cd9, 0x235682f13f09b6, 0x818a84a8f8c7d1ad, five, two)
    else
      Next(252, 585, five, two);
      ghost var five, two := 5 * five, 4 * two;
    if k == 253 then
      if negative then Inverse(253, 587, 0xbbb01b9283253ca29eb1aaedfb016f16,
        0x5b3fa968683dca, 0xf8eb95470586b337, 0x3d28bb0b076e83, 0xa6d68190f0988117, five, two)
      else Lower(253, 587, 0xae9672aba3d0c320a184ac2473b529b1,
        0x4538f241b17477, 0xcb00de44a51d7f15, 0x3485bddeefaeea, 0x9a074d323239b625, five, two)
    else
      Next(253, 587, five, two);
      ghost var five, two := 5 * five, 4 * two;
    if k == 254 then
      if negative then Inverse(254, 589, 0x96267c7535b763b54bc1558b2f3458de,
        0x1e16ee5d60cf47, 0x669a58a39a29bea8, 0x36f1f881e61b77, 0xbb5bc67e75d40d9f, five, two)
      else Lower(254, 589, 0xda3c0f568cc4f3e8c9e5d72d90a2741e,
        0x4538f241b17477, 0xa2671836ea7dff44, 0x6443a6778454e0, 0xeb3ad94da778b5c7, five, two)
    else
      Next(254, 589, five, two);
      ghost var five, two := 5 * five, 8 * two;
      if negative then Inverse(255, 592, 0xf03d93eebc589f88793555ab7eba27ca,
        0x69f74fd4aa41e9, 0xe1d5a7bbcfa3b51e, 0x4be061774972a2, 0xa1b530558f499df5, five, two)
      else Lower(255, 592, 0x8865899617fb18717e2fa67c7a658892,
        0x68eaa36febf6b, 0x189d4d709c8415d9, 0x3eaa480ab2b50c, 0xeb3ad94da778b5c7, five, two)
  }

  function Entry256(k: nat, negative: bool): (t: nat)
    requires 256 <= k <= 263
    ensures Good(if negative then 0 - k else k, t)
  {
    hide Good, Known, Isolated, Pow;
    Start(32);
    ghost var five, two := 86361685550944446253863518628003995711160003644362813850237034701685918031624270579715075034722882265605472939461496635969950989468319466936530037770580747746862471103668212890625, 0x40000000000000000000000000000000000000000000000000000000000000000000000000000000000000000000000000000000000000000000000000000000000000000000000000000;
    if k == 256 then
      if negative then Inverse(256, 594, 0xc0314325637a1939fa911155fefb5308,
        0x213aa28315934b, 0x5885a5a21415f8dc, 0x4f04159cfe36a6, 0xd27f8ccd36c1615b, five, two)
      else Lower(256, 594, 0xaa7eebfb9df9de8dddbb901b98feeab7,
        0x4538f241b17477, 0xcfe01efe9cca3c80, 0x4e54da0d5f624f, 0xeb3ad94da778b5c7, five, two)
    else
      Next(256, 594, five, two);
      ghost var five, two := 5 * five, 4 * two;
    if k == 257 then
      if negative then Inverse(257, 596, 0x99c102844f94e0fb2eda7444cbfc426d,
        0x213aa28315934b, 0x6ea70f0a991b7713, 0x4c811f186d99d6, 0xfec25f9e40cc5dc9, five, two)
      else Lower(257, 596, 0xd51ea6fa85785631552a74227f3ea565,
        0x3e640468ef0215, 0x95e3429c43d2b46f, 0x49c6e627886b63, 0xb13dfceb4e812db6, five, two)
    else
      Next(257, 596, five, two);
      ghost var five, two := 5 * five, 8 * two;
    if k == 258 then
      if negative then Inverse(258, 599, 0xf6019da07f549b2b7e2a53a146606a48,
        0x4a2f4e35d6ccf, 0x9a659b03150c0ee, 0x7a196c905c6d47, 0xfe1e6edf04c1f68d, five, two)
      else Lower(258, 599, 0x8533285c936b35ded53a88958f87275f,
        0x11055d520eedaf, 0x416d0cb4b6dd93a1, 0x3e81ef009d62a1, 0xf04502a598750c5e, five, two)
    else
      Next(258, 599, five, two);
      ghost var five, two := 5 * five, 4 * two;
    if k == 259 then
      if negative then Inverse(259, 601, 0xc4ce17b399107c22cb550fb4384d21d3,
        0x1dac85af22b86, 0x4d32cd818a86077, 0x60c1a0e2845671, 0xfbb7a811e39af36c, five, two)
      else Lower(259, 601, 0xa67ff273b84603568a892abaf368f137,
        0x523e5cd7ae7e06, 0xfce7d38491170b05, 0x2dc75c29c2665, 0x8cc5f4e4a5f437f, five, two)
    else
      Next(259, 601, five, two);
      ghost var five, two := 5 * five, 4 * two;
    if k == 260 then
      if negative then Inverse(260, 603, 0x9d71ac8fada6c9b56f773fc3603db4a9,
        0x76b216bc8ae18, 0x181fe0387b49e253, 0x4a3f7de4811995, 0xf1736540093cae0e, five, two)
      else Lower(260, 603, 0xd01fef10a657842c2d2b7569b0432d85,
        0x291f2e6bd73f03, 0x652987cea06f9e02, 0x44d5ec08493e81, 0xa9570a528565f401, five, two)
    else
      Next(260, 603, five, two);
      ghost var five, two := 5 * five, 8 * two;
    if k == 261 then
      if negative then Inverse(261, 606, 0xfbe9141915d7a9224bf1ff9f0062baa8,
        0x17c0747bd76fa1, 0x304654d25d9eff80, 0x6aea24049e9ca7, 0xd94cf0a626e790e1, five, two)
      else Lower(261, 606, 0x8213f56a67f6b29b9c3b29620e29fc73,
        0x6d0f3e7678fd1, 0x1ad44f6b78c82e01, 0x3e77e61fb56eea, 0xf5e1baa41b1129fb, five, two)
    else
      Next(261, 606, five, two);
      ghost var five, two := 5 * five, 4 * two;
    if k == 262 then
      if negative then Inverse(262, 608, 0xc987434744ac874ea327ffb266b56220,
        0x17c0747bd76fa1, 0x3c57ea06f506bf60, 0x5a48341c76c6d9, 0xe55e85dabe4f50c1, five, two)
      else Lower(262, 608, 0xa298f2c501f45f428349f3ba91b47b8f,
        0x27794f31d7d316, 0x7c4c6a1a8acd8935, 0x2cdddadea9d717, 0x8d479687327a5a66, five, two)
    else
      Next(262, 608, five, two);
      ghost var five, two := 5 * five, 4 * two;
      if negative then Inverse(263, 610, 0xa139029f6a239f721c1fffc1ebc44e80,
        0x17c0747bd76fa1, 0x4b6de488b2486f38, 0x4839c349f89f14, 0xe55e85dabe4f50c1, five, two)
      else Lower(263, 610, 0xcb3f2f7642717713241c70a936219a73,
        0x13bca798ebe98b, 0x31b82a71045236e2, 0x528fa7c746bb69, 0xcffaed64de796279, five, two)
  }

  function Entry264(k: nat, negative: bool): (t: nat)
    requires 264 <= k <= 271
    ensures Good(if negative then 0 - k else k, t)
  {
    hide Good, Known, Isolated, Pow;
    Start(33);
    ghost var five, two := 33735033418337674317915436964064060824671876423579224160248841680346061731103230695201201185438625885002137866977147123425762105261062291772082046004133104588618152774870395660400390625, 0x1000000000000000000000000000000000000000000000000000000000000000000000000000000000000000000000000000000000000000000000000000000000000000000000000000000000;
    if k == 264 then
      if negative then Inverse(264, 612, 0x80fa687f881c7f8e7ce66634bc9d0b99,
        0x17c0747bd76fa1, 0x5e495daadeda8b06, 0x3507b822689c23, 0xd2830cb891bd34f3, five, two)
      else Lower(264, 612, 0xfe0efb53d30dd4d7ed238cd383aa0110,
        0x62af45fc9b8fb7, 0xc6e0a9c41148db88, 0x7c4259d4a838f4, 0xfa6ae1bba50b2d67, five, two)
    else
      Next(264, 612, five, two);
      ghost var five, two := 5 * five, 8 * two;
    if k == 265 then
      if negative then Inverse(265, 615, 0xce5d73ff402d98e3fb0a3d212dc8128f,
        0x5f01d1ef5dbe84, 0xebb76a2b2d225b8f, 0x1076325b652821, 0x28d79778c893fbdc, five, two)
      else Lower(265, 615, 0x9ec95d1463e8a506f4363804324a40aa,
        0x248e191247733d, 0x75dec170646ba154, 0x3b626b9bc569fa, 0xbf7b810372d55cbd, five, two)
    else
      Next(265, 615, five, two);
      ghost var five, two := 5 * five, 4 * two;
    if k == 266 then
      if negative then Inverse(266, 617, 0xa5178fff668ae0b6626e974dbe39a872,
        0x4f4c4b9e926d3d, 0xf5ed50095f475a86, 0x1076325b652821, 0x330d7d56fab8fad3, five, two)
      else Lower(266, 617, 0xc67bb4597ce2ce48b143c6053edcd0d5,
        0x5ff084ae0cdd37, 0xf77b685cac33fe74, 0x1a42c42bb055dd, 0x43bdccd51cbb5d83, five, two)
    else
      Next(266, 617, five, two);
      ghost var five, two := 5 * five, 4 * two;
    if k == 267 then
      if negative then Inverse(267, 619, 0x8412d9991ed58091e858790afe9486c2,
        0x3629db1d4d1e65, 0xd1f8bab284d2014e, 0x3a0ed5380f9f1a, 0xe111a2b2a515a2e9, five, two)
      else Lower(267, 619, 0xf81aa16fdc1b81dadd94b7868e94050a,
        0x4163b2779d9072, 0x86f0e273619352c5, 0x575c68988eef67, 0xb44852be675c0932, five, two)
    else
      Next(267, 619, five, two);
      ghost var five, two := 5 * five, 8 * two;
    if k == 268 then
      if negative then Inverse(268, 622, 0xd3515c2831559a830d5a5b44ca873e03,
        0x349b10ac328483, 0x7f753aaf8af2586a, 0x3ad63a709cec0b, 0x8e8e22afab35fa05, five, two)
      else Lower(268, 622, 0x9b10a4e5e9913128ca7cf2b4191c8326,
        0x2360220286228a, 0x74cde8bbc5a97033, 0x3958d82377817f, 0xbd59cf9a3550fa7b, five, two)
    else
      Next(268, 622, five, two);
      ghost var five, two := 5 * five, 4 * two;
    if k == 269 then
      if negative then Inverse(269, 624, 0xa90de3535aaae202711515d0a205cb36,
        0x4c23f4d93e1621, 0xe6999ab34349eb87, 0x2f11c85a17233c, 0x8e8e22afab35fa05, five, two)
      else Lower(269, 624, 0xc1d4ce1f63f57d72fd1c2f611f63a3f0,
        0x48e49694e36bec, 0xc08b6ef97496a131, 0x3958d82377817f, 0x977b0c7b5dda61fc, five, two)
    else
      Next(269, 624, five, two);
      ghost var five, two := 5 * five, 4 * two;
    if k == 270 then
      if negative then Inverse(270, 626, 0x873e4f75e2224e685a7744a6e804a291,
        0x244537a387063b, 0x894fab5a87a9f224, 0x32ab4dec472ce7, 0xbfd256069acbfaa7, five, two)
      else Lower(270, 626, 0xf24a01a73cf2dccfbc633b39673c8cec,
        0x5b1dbc3a1c46e7, 0xc08b6ef97496a131, 0x271fb27e3ea684, 0x52acf3ca66f6faf3, five, two)
    else
      Next(270, 626, five, two);
      ghost var five, two := 5 * five, 8 * two;
      if negative then Inverse(271, 629, 0xd863b256369d4a4090bed43e40076a82,
        0x4cce42c6f32a27, 0xb5baf61be23034aa, 0x51121646d847d8, 0xbfd256069acbfaa7, five, two)
      else Lower(271, 629, 0x976e41088617ca01d5be0503e085d813,
        0x42679648844261, 0xe0850c7ac462d94d, 0x9c7ec9f8fa9a1, 0x2111fb1dc2c9312e, five, two)
  }

  function Entry272(k: nat, negative: bool): (t: nat)
    requires 272 <= k <= 279
    ensures Good(if negative then 0 - k else k, t)
  {
    hide Good, Known, Isolated, Pow;
    Start(34);
    ghost var five, two := 13177747429038154030435717564087523759637451727960634437597203781385180363712199490312969213061963236328960104287948095088188322367602457723469549220364493979928965927683748304843902587890625, 0x80000000000000000000000000000000000000000000000000000000000000000000000000000000000000000000000000000000000000000000000000000000000000000000000000000000000000;
    if k == 272 then
      if negative then Inverse(272, 631, 0xad1c8eab5ee43b66da3243650005eecf,
        0x1eb8e782c7aa76, 0x5add7b0df1181a55, 0x5555e9c6bd6589, 0xfc64236da841b0cd, five, two)
      else Lower(272, 631, 0xbd49d14aa79dbc824b2d8644d8a74e18,
        0x5a576d52511232, 0xf45ca3263941f6cf, 0x9c7ec9f8fa9a1, 0x1a74c8e49bd42758, five, two)
    else
      Next(272, 631, five, two);
      ghost var five, two := 5 * five, 4 * two;
    if k == 273 then
      if negative then Inverse(273, 633, 0x8a7d3eef7f1cfc52482835ea666b2572,
        0x263ba52a0e51b9, 0x8d594c03f465cf0c, 0x2e6c53b7020666, 0xaba0cf3dccace591, five, two)
      else Lower(273, 633, 0xec9c459d51852ba2ddf8e7d60ed1219e,
        0x4c6170c22a6982, 0xa547948f1f7f7813, 0x30e79f1dce5025, 0x69d323926f509d60, five, two)
    else
      Next(273, 633, five, two);
      ghost var five, two := 5 * five, 8 * two;
    if k == 274 then
      if negative then Inverse(274, 636, 0xdd95317f31c7fa1d40405643d711d583,
        0x4b5f1b560ff071, 0xae2837215f161430, 0x4a46ec58033d70, 0xaba0cf3dccace591, five, two)
      else Lower(274, 636, 0x93e1ab8252f33b45cabb90e5c942b503,
        0x20d54502b8a70f, 0x71acfc36998babca, 0x2e39e56ea0094c, 0xa00baecc58ad6e77, five, two)
    else
      Next(274, 636, five, two);
      ghost var five, two := 5 * five, 4 * two;
    if k == 275 then
      if negative then Inverse(275, 638, 0xb1442798f49ffb4a99cd11cfdf41779c,
        0x4b5f1b560ff071, 0xd9b244e9b6db993c, 0x2c58eacecc3443, 0x8016c17574e76085, five, two)
      else Lower(275, 638, 0xb8da1662e7b00a173d6a751f3b936243,
        0x1546cba710a4bc, 0x3aee739c6919d9bd, 0x4f0f2a7158b05b, 0xdafa2268c1c74834, five, two)
    else
      Next(275, 638, five, two);
      ghost var five, two := 5 * five, 4 * two;
    if k == 276 then
      if negative then Inverse(276, 640, 0x8dd01fad907ffc3bae3da7d97f6792e3,
        0x27e4c5e3d2f9d5, 0x900814aeafab1f06, 0x237a55723cf69c, 0x8016c17574e76085, five, two)
      else Lower(276, 640, 0xe7109bfba19c0c9d0cc512670a783ad4,
        0x6455f618695517, 0xde53ab375580e7f4, 0x49bd778794872c, 0xa365379aec670e37, five, two)
    else
      Next(276, 640, five, two);
      ghost var five, two := 5 * five, 8 * two;
    if k == 277 then
      if negative then Inverse(277, 643, 0xe2e69915b3fff9f916c90c8f323f516c,
        0x4c4131d32df116, 0xac11703dbe340787, 0x6ed970c84ce70d, 0xfa217ebfffec2c0a, five, two)
      else Lower(277, 643, 0x906a617d450187e227fb2b80668b24c5,
        0x28f34c1b4219a6, 0x912eb10d48528385, 0x3339894e378f51, 0xb59bbe28907b98e9, five, two)
    else
      Next(277, 643, five, two);
      ghost var five, two := 5 * five, 4 * two;
    if k == 278 then
      if negative then Inverse(278, 645, 0xb58547448ffffb2dabd40a0c2832a78a,
        0x4555f2088e264b, 0xc391c8ac9d530048, 0x1bacff2a7f2b2c, 0x4e100e8241b82483, five, two)
      else Lower(278, 645, 0xb484f9dc9641e9dab1f9f660802dedf6,
        0x4286a69638f20d, 0xbcaf5907aec97c5f, 0x23d997adec4e12, 0x65ae0912e1db8aab, five, two)
    else
      Next(278, 645, five, two);
      ghost var five, two := 5 * five, 4 * two;
      if negative then Inverse(279, 647, 0x91376c36d99995be23100809b9c21fa1,
        0x4555f2088e264b, 0xf4763ad7c4a7c05a, 0x1623ff553288f0, 0x4e100e8241b82483, five, two)
      else Lower(279, 647, 0xe1a63853bbd264515e7873f8a0396973,
        0x6793d70730d481, 0xeb04a55b5492d035, 0x11eccbd6f62709, 0x28ac03a127249dde, five, two)
  }

  function Entry280(k: nat, negative: bool): (t: nat)
    requires 280 <= k <= 287
    ensures Good(if negative then 0 - k else k, t)
  {
    hide Good, Known, Isolated, Pow;
    Start(35);
    ghost var five, two := 5147557589468028918138952173471688968608379581234622827186407727103586079575077925903503598852329389191000040737479724643823563424844710048230292664204880460909752315501464181579649448394775390625, 0x4000000000000000000000000000000000000000000000000000000000000000000000000000000000000000000000000000000000000000000000000000000000000000000000000000000000000000000;
    if k == 280 then
      if negative then Inverse(280, 650, 0xe858ad248f5c22c9d1b3400f8f9cff68,
        0x5f8e4703e6a5b4, 0xd2913b3f238b5781, 0x16b93023ca3e6f, 0x3212cafb8903012c, five, two)
      else Lower(280, 650, 0x8d07e33455637eb2db0b487b6423e1e8,
        0x358866fe24ac6b, 0xc258a1ba2d6e3257, 0x11eccbd6f62709, 0x41133901d83a9630, five, two)
    else
      Next(280, 650, five, two);
      ghost var five, two := 5 * five, 4 * two;
    if k == 281 then
      if negative then Inverse(281, 652, 0xb9e08a83a5e34f07daf5ccd93fb0cc53,
        0x5b5d1a457dde10, 0xfba978832188a2c5, 0x48b70072872e3, 0xc84b2bee240c04b, five, two)
      else Lower(281, 652, 0xb049dc016abc5e5f91ce1a9a3d2cda62,
        0x11dd4cb546b4dd, 0x33e25ef26788281b, 0x47c2ae7d880e50, 0xd06a8514f96230a5, five, two)
    else
      Next(281, 652, five, two);
      ghost var five, two := 5 * five, 4 * two;
    if k == 282 then
      if negative then Inverse(282, 654, 0x94b3a202eb1c3f397bf7d71432f3d6a9,
        0x49b7c26539d93b, 0xfdd203ffc2bd9d29, 0x122dc01ca1cb8c, 0x3e977dba6b43c177, five, two)
      else Lower(282, 654, 0xdc5c5301c56b75f77641a140cc7810fb,
        0x478891bf36222b, 0xa6349816c3f40395, 0x35bea3f40abc05, 0x7cdfb463e9c766be, five, two)
    else
      Next(282, 654, five, two);
      ghost var five, two := 5 * five, 8 * two;
    if k == 283 then
      if negative then Inverse(283, 657, 0xedec366b11c6cb8f2cbfbe86b7ec8aa8,
        0x714f4ea98987d1, 0xf3d68c1aa7c8066a, 0xab4e613d6f185, 0x170a4d83258395a3, five, two)
      else Lower(283, 657, 0x89b9b3e11b6329baa9e904c87fcb0a9d,
        0x188ddd9bfdced9, 0x5b47f8a79e15f923, 0x35bea3f40abc05, 0xc7cc53d30fa57130, five, two)
    else
      Next(283, 657, five, two);
      ghost var five, two := 5 * five, 4 * two;
    if k == 284 then
      if negative then Inverse(284, 659, 0xbe5691ef416bd60c23cc986bc656d553,
        0x2d52ec43d09cba, 0x79eb460d53e40335, 0x59662e8d66ce21, 0xf07aaadbdb9efae7, five, two)
      else Lower(284, 659, 0xac2820d9623bf429546345fa9fbdcd44,
        0x5598b3260bc629, 0xfe911c37a1b2a045, 0x3d0ad58a0df750, 0xb58abbb189a10c29, five, two)
    else
      Next(284, 659, five, two);
      ghost var five, two := 5 * five, 4 * two;
    if k == 285 then
      if negative then Inverse(285, 661, 0x9845418c345644d6830a13896b78aaa9,
        0x2442569ca6e3c8, 0x79eb460d53e40335, 0x3e346d97e9a34b, 0xd128e108d39bb739, five, two)
      else Lower(285, 661, 0xd732290fbacaf133a97c177947ad4095,
        0x5598b3260bc629, 0xcba749c61af54d04, 0x4c4d8aec917524, 0xb58abbb189a10c29, five, two)
    else
      Next(285, 661, five, two);
      ghost var five, two := 5 * five, 8 * two;
    if k == 286 then
      if negative then Inverse(286, 664, 0xf3a20279ed56d48a6b43527578c1110f,
        0x17d173e4ab5cb9, 0x320defa739fb0b1a, 0x638715bfdc3878, 0xd128e108d39bb739, five, two)
      else Lower(286, 664, 0x867f59a9d4bed6c049ed8eabcccc485d,
        0xe2f457a4f5727, 0x35ff6400c2fd3651, 0x430262b317241f, 0xff16af618d47abb0, five, two)
    else
      Next(286, 664, five, two);
      ghost var five, two := 5 * five, 4 * two;
      if negative then Inverse(287, 666, 0xc2e801fb244576d5229c41f793cda73f,
        0x49281159ae6533, 0xc02cd3e90f452f0a, 0x1985299057abc1, 0x4309fcc6fe519349, five, two)
      else Lower(287, 666, 0xa81f301449ee8c705c68f256bfff5a74,
        0xe2f457a4f5727, 0x2b32b66702642b74, 0x50372a0149175d, 0xf44a01c7ccaea0d3, five, two)
  }

  function Entry288(k: nat, negative: bool): (t: nat)
    requires 288 <= k <= 295
    ensures Good(if negative then 0 - k else k, t)
  {
    hide Good, Known, Isolated, Pow;
    Start(36);
    ghost var five, two := 2010764683385948796148028192762378503362648273919774541869690518399838312334014814806056093301691167652734390913078017438993579462829964862589958071955031430042871998242759445929550565779209136962890625, 0x100000000000000000000000000000000000000000000000000000000000000000000000000000000000000000000000000000000000000000000000000000000000000000000000000000000000000000000000;
    if k == 288 then
      if negative then Inverse(288, 668, 0x9becce62836ac5774ee367f9430aec32,
        0x1d433a23df5bae, 0x601669f487a29785, 0x41abf0329f0559, 0xd7a42cebbf9d3bf9, five, two)
      else Lower(288, 668, 0xd226fc195c6a2f8c73832eec6fff3111,
        0x59c1082cba3cb7, 0xdaab9909f22b2066, 0x632b5e91510131, 0xf19bf8c0e67859b1, five, two)
    else
      Next(288, 668, five, two);
      ghost var five, two := 5 * five, 8 * two;
    if k == 289 then
      if negative then Inverse(289, 671, 0xf97ae3d0d2446f254b0573286b44ad1d,
        0x6f555239fd3054, 0xe47c5c61faea7455, 0x1eb11fb93f6b47, 0x3efced592ad0a051, five, two)
      else Lower(289, 671, 0x83585d8fd9c25db7c831fd53c5ff7eab,
        0x3d6e5022ad72bd, 0xef7724bb618020c9, 0x1c52b80a0cc9fa, 0x6e683687bb91aca7, five, two)
    else
      Next(289, 671, five, two);
      ghost var five, two := 5 * five, 4 * two;
    if k == 290 then
      if negative then Inverse(290, 673, 0xc795830d75038c1dd59df5b9ef6a2417,
        0x617deaa8d75513, 0xfa196df8f1b49fa5, 0x86cdc140cc803, 0x159d1196f6ca2b50, five, two)
      else Lower(290, 673, 0xa42e74f3d032f525ba3e7ca8b77f5e55,
        0x33f53218e050da, 0xa207c902cabddb1b, 0x46cecc191ff8f1, 0xdcd06d0f7723594e, five, two)
    else
      Next(290, 673, five, two);
      ghost var five, two := 5 * five, 4 * two;
    if k == 291 then
      if negative then Inverse(291, 675, 0x9faacf3df73609b177b191618c54e9ac,
        0x4a9f96e573f40e, 0xef4ae52d764f89fd, 0x86cdc140cc803, 0x1b0455fcb47cb624, five, two)
      else Lower(291, 675, 0xcd3a1230c43fb26f28ce1bd2e55f35eb,
        0x51804aab68b972, 0xcb543e320a1466ab, 0x3064b292c810af, 0x78bb53d38b674f8b, five, two)
    else
      Next(291, 675, five, two);
      ghost var five, two := 5 * five, 8 * two;
    if k == 292 then
      if negative then Inverse(292, 678, 0xff77b1fcbebcdc4f25e8e89c13bb0f7a,
        0x441fbb320324db, 0x88882854abf5b6d5, 0x54f9735a1cb4e1, 0xaa4d93d08d919a82, five, two)
      else Lower(292, 678, 0x80444b5e7aa7cf857980d163cf5b81b3,
        0x3dc077d59b7703, 0xf67e5b1211e779fb, 0x3d2469e89d9fb, 0xf40f6fb9eb0e35e, five, two)
    else
      Next(292, 678, five, two);
      ghost var five, two := 5 * five, 4 * two;
    if k == 293 then
      if negative then Inverse(293, 680, 0xcc5fc196fefd7d0c1e53ed49a96272c8,
        0x4b0230925ff29e, 0xbbe986c11122a069, 0x62be5e1ad65067, 0xf75fa1732554f8e0, five, two)
      else Lower(293, 680, 0xa0555e361951c366d7e105bcc332621f,
        0x301279b43a106b, 0x9982d0c44272fcea, 0x2196ed6675a929, 0x6b4356595e9b4531, five, two)
    else
      Next(293, 680, five, two);
      ghost var five, two := 5 * five, 4 * two;
    if k == 294 then
      if negative then Inverse(294, 682, 0xa37fce126597973ce50ff107bab528a0,
        0x3f0cad3c4a3cb4, 0xc570bd6be5ae376d, 0x13bfac6bc4767b, 0x3dd7e85cc9553e38, five, two)
      else Lower(294, 682, 0xc86ab5c39fa634408dd9472bf3fefaa7,
        0x58e72d4191ed35, 0xe31e50427594e4c6, 0xd2c939fc9bac4, 0x21a7d6db2b795d55, five, two)
    else
      Next(294, 682, five, two);
      ghost var five, two := 5 * five, 4 * two;
      if negative then Inverse(295, 684, 0x82cca4db847945ca50d98d9fc890ed4d,
        0x3a56cf8e89f98e, 0xe45cb19a4a58d689, 0x13bfac6bc4767b, 0x4d4de273fbaa8dc6, five, two)
      else Lower(295, 684, 0xfa856334878fc150b14f98f6f0feb951,
        0x7d0ae664fdb0f8, 0xff8df8d457bab3a7, 0x34b24e7f26eb1, 0x6bb2af8a24b7911, five, two)
  }

  function Entry296(k: nat, negative: bool): (t: nat)
    requires 296 <= k <= 303
    ensures Good(if negative then 0 - k else k, t)
  {
    hide Good, Known, Isolated, Pow;
    Start(37);
    ghost var five, two := 785454954447636248495323512797804102876034481999911930417847858749936840755474537033615661445973112364349371450421100562106866977667955024449202371857434152360496874313577908566230689757503569126129150390625, 0x8000000000000000000000000000000000000000000000000000000000000000000000000000000000000000000000000000000000000000000000000000000000000000000000000000000000000000000000000000;
    if k == 296 then
      if negative then Inverse(296, 687, 0xd1476e2c07286faa1af5af660db4aee1,
        0x4aaeaceacf97df, 0xb6b5bc630b8b5c04, 0x4efeb1af11d9ec, 0xc142b621f52a626f, five, two)
      else Lower(296, 687, 0x9c935e00d4b9d8d26ed1bf9a569f33d3,
        0x41088663d4327e, 0xd4a86c467bd24a53, 0x1077b887bc2975, 0x35d957c5125bc888, five, two)
    else
      Next(296, 687, five, two);
      ghost var five, two := 5 * five, 4 * two;
    if k == 297 then
      if negative then Inverse(297, 689, 0xa76c582338ed2621af2af2b80af6f24e,
        0xeefbc2ef65193, 0x2dad6f18c2e2d701, 0x4cff03cce24e80, 0xeb769d1d9ba67c1b, five, two)
      else Lower(297, 689, 0xc3b8358109e84f070a862f80ec4700c8,
        0x806455516f7e5, 0x14fdf28c116bbea7, 0x5a5cdffbc3c72e, 0xec6351a05adae0c7, five, two)
    else
      Next(297, 689, five, two);
      ghost var five, two := 5 * five, 4 * two;
    if k == 298 then
      if negative then Inverse(298, 691, 0x85f0468293f0eb4e25bbf56008c58ea5,
        0x3bbef0bbd9464c, 0xe4632b7bce6e3305, 0x1e55f024bd2e13, 0x73f672265a852bc8, five, two)
      else Lower(298, 691, 0xf4a642e14c6262c8cd27bb612758c0fa,
        0x3ab36ffdd84d52, 0x7ad9464b84160e81, 0x4d4785523dc32b, 0xa1bac266c27d2266, five, two)
    else
      Next(298, 691, five, two);
      ghost var five, two := 5 * five, 8 * two;
    if k == 299 then
      if negative then Inverse(299, 694, 0xd64d3d9db981787d092cbbccdad5b108,
        0x65cde41739f70e, 0xf339e4c1ca9eebcb, 0x6113007590937, 0xe7ece44cb50a579, five, two)
      else Lower(299, 694, 0x98e7e9cccfbd7dbd8038d51cb897789c,
        0x3d64d8a879f986, 0xcd934ce36e64def3, 0x17f6e6a9a8ce41, 0x503e7f67338e7c1e, five, two)
    else
      Next(299, 694, five, two);
      ghost var five, two := 5 * five, 4 * two;
    if k == 300 then
      if negative then Inverse(300, 696, 0xab70fe17c79ac6ca6dbd630a48aaf406,
        0x4af71113935125, 0xdfe109b661f30084, 0x1844c01d6424dc, 0x487a0757f8933b5d, five, two)
      else Lower(300, 696, 0xbf21e44003acdd2ce0470a63e6bd56c3,
        0x1eb26c543cfcc3, 0x523aeb8e2c28592e, 0x4b4276d2448204, 0xc99a74957d3124d3, five, two)
    else
      Next(300, 696, five, two);
      ghost var five, two := 5 * five, 4 * two;
    if k == 301 then
      if negative then Inverse(301, 698, 0x892731ac9faf056ebe311c083a225cd2,
        0x3166a085be3df2, 0xb86a8c33298cbb9f, 0x17d62ff7e92abf, 0x58fbcc4258a9b699, five, two)
      else Lower(301, 698, 0xeeea5d50049814781858ccfce06cac74,
        0x31830a08ce1d44, 0x6a1ad3c2d5f6e84f, 0x5e131486d5a285, 0xc99a74957d3124d3, five, two)
    else
      Next(301, 698, five, two);
      ghost var five, two := 5 * five, 8 * two;
    if k == 302 then
      if negative then Inverse(302, 701, 0xdb71e91432b1a24ac9e82cd9f69d6150,
        0x5db05dbbeb780d, 0xda975741d9d389e6, 0x493cd07da768b1, 0xaadff74971620763, five, two)
      else Lower(302, 701, 0x95527a5202df0ccb0f37801e0c43ebc8,
        0x419aae06b81c3c, 0xe0f20f8617bb75a5, 0x45518f826e93e3, 0xedae778683891aac, five, two)
    else
      Next(302, 701, five, two);
      ghost var five, two := 5 * five, 4 * two;
      if negative then Inverse(303, 703, 0xaf8e5410288e1b6f07ecf0ae5ee44dd9,
        0x2b478909e72a71, 0x7e38e5c5131f263e, 0x30086624a541e3, 0x8c15d1752f25e62b, five, two)
      else Lower(303, 703, 0xbaa718e68396cffdd30560258f54e6ba,
        0x5201598866234b, 0xe0f20f8617bb75a5, 0x45518f826e93e3, 0xbe252c6b9c6daef0, five, two)
  }

  function Entry304(k: nat, negative: bool): (t: nat)
    requires 304 <= k <= 311 && (negative || k <= 308)
    ensures Good(if negative then 0 - k else k, t)
  {
    hide Good, Known, Isolated, Pow;
    Start(38);
    ghost var five, two := 306818341581107909568485747186642227685950969531215597819471819824194078420107241028756117752333247017323973222820742407072994913151544931425469676506810215765819091528741370533683863186524831689894199371337890625, 0x200000000000000000000000000000000000000000000000000000000000000000000000000000000000000000000000000000000000000000000000000000000000000000000000000000000000000000000000000000000;
    if k == 304 then
      if negative then Inverse(304, 705, 0x8c71dcd9ba0b49259ff0c08b7f1d0b14,
        0x2d2e47e1666705, 0xa4b5950e65ea4fc4, 0x30fbc59064e02d, 0xb29280be81f10fb1, five, two)
      else Lower(304, 705, 0xe950df20247c83fd47c6b82ef32a2069,
        0x32bf2817de3da, 0x6f5c7054bdc5af1, 0x730fa69f42ea45, 0xfc7ef12bcfe0cd07, five, two)
    else
      Next(304, 705, five, two);
      ghost var five, two := 5 * five, 8 * two;
    if k == 305 then
      if negative then Inverse(305, 708, 0xe0b62e2929aba83c331acdabfe94de87,
        0x66709c48acdd2b, 0xe96822cbda258da4, 0xc140c85e00f21, 0x1b852879dac0a9ef, five, two)
      else Lower(305, 708, 0x91d28b7416cdd27e4cdc331d57fa5441,
        0x7edde43bab9a1, 0x1bd71c152f716bc4, 0x426dc96987ac4e, 0xe93d590fc14e4519, five, two)
    else
      Next(305, 708, five, two);
      ghost var five, two := 5 * five, 4 * two;
    if k == 306 then
      if negative then Inverse(306, 710, 0xb3c4f1ba87bc86968f48a4899877186c,
        0x1f50347ec5192a, 0x592ee8ec12521ce3, 0x472067c9e7c401, 0xca934292be5cd42a, five, two)
      else Lower(306, 710, 0xb6472e511c81471de0133fe4adf8e952,
        0x4d92e0fc334aee, 0xd9e58411926c8a67, 0x5a376434b7d931, 0xfd688aa5d94ed384, five, two)
    else
      Next(306, 710, five, two);
      ghost var five, two := 5 * five, 4 * two;
    if k == 307 then
      if negative then Inverse(307, 712, 0x8fd0c16206306baba5d3b6d479f8e056,
        0x3066baa1f57187, 0xac5075a97e36132d, 0x1c735cb729819a, 0x6549a1495f2e6a15, five, two)
      else Lower(307, 712, 0xe3d8f9e563a198e558180fddd97723a6,
        0x26c9707e19a577, 0x57289b3a3a91d0f6, 0x59c970ca71dbda, 0xc9c2f5ffe59f4bab, five, two)
    else
      Next(307, 712, five, two);
      ghost var five, two := 5 * five, 8 * two;
    if k == 308 then
      if negative then Inverse(308, 715, 0xe61acf033d1a45df6fb92487298e33bd,
        0x397dccb1eff8eb, 0x7fec30ed6ad1497e, 0x5f083b791401e9, 0xd3741d1ec23dc94d, five, two)
      else Lower(308, 715, 0x8e679c2f5e44ff8f570f09eaa7ea7648,
        0x4703a7a4fb29b4, 0xff52e1a86bd602b5, 0x30da3f38fa43b, 0xafa4c9e2cfe43e6, five, two)
    else
      Next(308, 715, five, two);
      ghost var five, two := 5 * five, 4 * two;
    if k == 309 then
      Inverse(309, 717, 0xb8157268fdae9e4c5960ea05bad82964,
        0x16ff1ead93305e, 0x3ff61876b568a4bf, 0x56946ce511aa2b, 0xf0cedab6b54391e5, five, two)
    else
      Next(309, 717, five, two);
      ghost var five, two := 5 * five, 4 * two;
    if k == 310 then
      Inverse(310, 719, 0x93445b8731587ea37ab3ee6afbe0211d,
        0x46122b98f895c3, 0xf39d3d8630602a12, 0x15ea4f1d542bb5, 0x4c313ccb5aab0da9, five, two)
    else
      Next(310, 719, five, two);
      ghost var five, two := 5 * five, 8 * two;
      Inverse(311, 722, 0xeba09271e88d976bf7864a44c633682e,
        0x55df85300a4adf, 0xba9883108379e0da, 0x73b08118e75122, 0xfb62675deec3acab, five, two)
  }

  function Entry312(k: nat, negative: bool): (t: nat)
    requires 312 <= k <= 319 && (negative || k <= 308)
    ensures Good(if negative then 0 - k else k, t)
  {
    hide Good, Known, Isolated, Pow;
    Start(39);
    ghost var five, two := 119850914680120277175189744994782120189824597473131092898231179618825811882854391026857858497005174616142177040164352502762888637949822238838074092385472740533523082628414597864720259057236262378864921629428863525390625, 0x10000000000000000000000000000000000000000000000000000000000000000000000000000000000000000000000000000000000000000000000000000000000000000000000000000000000000000000000000000000000000;
    if k == 312 then
      Inverse(312, 724, 0xbc807527ed3e12bcc605083704f5ecf2,
        0x2798eb26142a6b, 0x6b8d7025acf682bb, 0x5c8d3413ec40e8, 0xfb62675deec3acab, five, two)
    else
      Next(312, 724, five, two);
      ghost var five, two := 5 * five, 4 * two;
    if k == 313 then
      Inverse(313, 726, 0x96cd2a865764dbca380406926a5e5728,
        0x2a44cab46e8cd5, 0x8f82adf3bd69cd37, 0x34f448edd8167d, 0xb3ca35065240746c, five, two)
    else
      Next(313, 726, five, two);
      ghost var five, two := 5 * five, 8 * two;
    if k == 314 then
      Inverse(314, 729, 0xf148440a256e2c76c00670ea43ca250d,
        0x43a14453e41488, 0x8f82adf3bd69cd37, 0x56c4eb17ca20c1, 0xb81fb81dd21d2f5f, five, two)
    else
      Next(314, 729, five, two);
      ghost var five, two := 5 * five, 4 * two;
    if k == 315 then
      Inverse(315, 731, 0xc1069cd4eabe89f8999ec0bb696e840a,
        0x2a9ed29a5fa2b1, 0x710ce6542de34399, 0x3dc2795e45aeea, 0xa3d13308c7c37e4b, five, two)
    else
      Next(315, 731, five, two);
      ghost var five, two := 5 * five, 4 * two;
    if k == 316 then
      Inverse(316, 733, 0x9a6bb0aa55653b2d47b233c92125366e,
        0x14e04264eddd1f, 0x453786573d69b079, 0x3b278fecb9f591, 0xc422461abe1a4336, five, two)
    else
      Next(316, 733, five, two);
      ghost var five, two := 5 * five, 8 * two;
    if k == 317 then
      Inverse(317, 736, 0xf712b443bbd52b7ba5e9ec7501d523e4,
        0x6a76d386aeb2af, 0xdc9f20a8bdb754ce, 0x142e6a8aeabcc3, 0x29d22a59271db485, five, two)
    else
      Next(317, 736, five, two);
      ghost var five, two := 5 * five, 4 * two;
    if k == 318 then
      Inverse(318, 738, 0xc5a890362fddbc62eb2189f734aa831d,
        0x1d5d881f4da271, 0x4c10dd56c2fcaf76, 0x50b9aa2baaf30c, 0xd11ad3bdc3948699, five, two)
    else
      Next(318, 738, five, two);
      ghost var five, two := 5 * five, 4 * two;
      Inverse(319, 740, 0x9e20735e8cb1638255b46e5f5d5535b0,
        0x3abb103e9b44e2, 0xbe2a2958e777b6a7, 0x1a6ac2719b40bb, 0x55893289310b176f, five, two)
  }

  function Entry320(k: nat, negative: bool): (t: nat)
    requires 320 <= k <= 327 && (negative || k <= 308)
    ensures Good(if negative then 0 - k else k, t)
  {
    hide Good, Known, Isolated, Pow;
    Start(40);
    ghost var five, two := 46816763546921983271558494138586765699150233387941833163371554538603832766739996494866350975392646334430537906314200196391753374199149312046122692338075289270907454151724452290906351194232914991744110011495649814605712890625, 0x800000000000000000000000000000000000000000000000000000000000000000000000000000000000000000000000000000000000000000000000000000000000000000000000000000000000000000000000000000000000000000;
    if k == 320 then
      Inverse(320, 743, 0xfd00b897478238d08920b098955522b4,
        0x4a94b81c5ed21f, 0x96edcccb030efaf2, 0x74d9226bbda017, 0xec76ff54341a1261, five, two)
    else
      Next(320, 743, five, two);
      ghost var five, two := 5 * five, 4 * two;
    if k == 321 then
      Inverse(321, 745, 0xca66fa129f9b60a6d41a26e077774ef6,
        0x6364e1ace3b329, 0xfb6dc83d75b86eda, 0x1fd9f4d46285d, 0x5092611d7c1ccfb, five, two)
    else
      Next(321, 745, five, two);
      ghost var five, two := 5 * five, 4 * two;
    if k == 322 then
      Inverse(322, 747, 0xa1ebfb4219491a1f1014ebe6c5f90bf8,
        0x3ade539162fe5a, 0xba24acf4d7f1d331, 0x216a68633dcfe7, 0x69a935a7075d6a0c, five, two)
    else
      Next(322, 747, five, two);
      ghost var five, two := 5 * five, 4 * two;
    if k == 323 then
      Inverse(323, 749, 0x818995ce7aa0e1b27343efebd1940993,
        0x2f1842dab59848, 0xba24acf4d7f1d331, 0x216a68633dcfe7, 0x84138310c934c48f, five, two)
    else
      Next(323, 749, five, two);
      ghost var five, two := 5 * five, 8 * two;
    if k == 324 then
      Inverse(324, 752, 0xcf42894a5dce35ea52064cac828675b9,
        0x4b5a0491228d40, 0xba24acf4d7f1d331, 0x5082ab3df3682f, 0xc6e31e0384b81ed8, five, two)
    else
      Next(324, 752, five, two);
      ghost var five, two := 5 * five, 4 * two;
    if k == 325 then
      Inverse(325, 754, 0xa5ced43b7e3e9188419ea3bd35385e2d,
        0x1c13bf2820adba, 0x56b31df31595c3c5, 0x5082ab3df3682f, 0xf89be58465e6268e, five, two)
    else
      Next(325, 754, five, two);
      ghost var five, two := 5 * five, 4 * two;
    if k == 326 then
      Inverse(326, 756, 0x84a57695fe98746d014bb630f7604b57,
        0x31cb6e0957e54f, 0xc033a64db9da2f4b, 0x25134d7b84f905, 0x8f1b5d29c1a1bb08, five, two)
    else
      Next(326, 756, five, two);
      ghost var five, two := 5 * five, 8 * two;
      Inverse(327, 759, 0xd43bf0effdc0ba480212bd1b2566def2,
        0x571625f4740719, 0xd21711f2f20e66ac, 0x25134d7b84f905, 0x59711a3a190514e5, five, two)
  }

  function Entry328(k: nat, negative: bool): (t: nat)
    requires 328 <= k <= 335 && (negative || k <= 308)
    ensures Good(if negative then 0 - k else k, t)
  {
    hide Good, Known, Isolated, Pow;
    Start(41);
    ghost var five, two := 18287798260516399715452536772885455351230559917164778579442013491642122174507811130807168349762752474386928869653984451715528661796542700018016676694560659871448224278017364176135293435247232418650042973240488208830356597900390625, 0x20000000000000000000000000000000000000000000000000000000000000000000000000000000000000000000000000000000000000000000000000000000000000000000000000000000000000000000000000000000000000000000000;
    if k == 328 then
      Inverse(328, 761, 0xa9c98d8ccb009506680efdaf511f18c2,
        0x4ad7ef8f540e1a, 0xe1b180b25210851d, 0xc3e36651ff8ff, 0x24eb55bd5c817b3a, five, two)
    else
      Next(328, 761, five, two);
      ghost var five, two := 5 * five, 4 * two;
    if k == 329 then
      Inverse(329, 763, 0x87d4713d6f33aa6b8672648c40e5ad68,
        0x2a2e2fd1a7fea3, 0x9efeeb85dcaa1c97, 0x42aa9c9be7f0a1, 0xfb4b41df43edd0a8, five, two)
    else
      Next(329, 763, five, two);
      ghost var five, two := 5 * five, 8 * two;
    if k == 330 then
      Inverse(330, 766, 0xd953e8624b85dd78d71d6dad34a2af0d,
        0x3627c6c9de674b, 0x7f958349f42c6282, 0x42aa9c9be7f0a1, 0x9d0f092b8a74a269, five, two)
    else
      Next(330, 766, five, two);
      ghost var five, two := 5 * five, 4 * two;
    if k == 331 then
      Inverse(331, 768, 0xaddcb9e83c6b1793df4abe242a1bbf3d,
        0x46d0272d0059ad, 0xd088e2d0a0298c70, 0x257f6666bc74e9, 0x6e6ce568424569d5, five, two)
    else
      Next(331, 768, five, two);
      ghost var five, two := 5 * five, 4 * two;
    if k == 332 then
      Inverse(332, 770, 0x8b16fb203055ac764c3bcb5021afcc31,
        0x28d0a20e032f59, 0x963e361c85ee85b7, 0x1dff851efd2a54, 0x6e6ce568424569d5, five, two)
    else
      Next(332, 770, five, two);
      ghost var five, two := 5 * five, 8 * two;
    if k == 333 then
      Inverse(333, 773, 0xde8b2b66b3bc4723ad2c788035e61382,
        0x66485d4e0a0d3e, 0xeb51a557d9d00f8b, 0x9d5fc42fda987, 0x16a10f43881c36f9, five, two)
    else
      Next(333, 773, five, two);
      ghost var five, two := 5 * five, 4 * two;
    if k == 334 then
      Inverse(334, 775, 0xb208ef855c969f4fbdbd2d335e51a935,
        0x1e4adbb8ffac2d, 0x571dbc6a6097489a, 0x45a2ccc4f65249, 0xc84308bc09245b77, five, two)
    else
      Next(334, 775, five, two);
      ghost var five, two := 5 * five, 4 * two;
      Inverse(335, 777, 0x8e6d8c6ab0787f72fe30f0f5e50e20f7,
        0x3c95b771ff585a, 0xd9ca5709f17a3581, 0x15cbbf902f64e1, 0x4e5a15436c6c5b95, five, two)
  }

  function Entry336(k: nat, negative: bool): (t: nat)
    requires 336 <= k <= 342 && (negative || k <= 308)
    ensures Good(if negative then 0 - k else k, t)
  {
    hide Good, Known, Isolated, Pow;
    Start(42);
    ghost var five, two := 7143671195514218638848647176908380996574437467642491632594536520172703974417113722971550136626075185307394089708587676451378383514274492194537764333812757762284462608600532881302848998143450163535173036422065706574358046054840087890625, 0x1000000000000000000000000000000000000000000000000000000000000000000000000000000000000000000000000000000000000000000000000000000000000000000000000000000000000000000000000000000000000000000000000000;
    if k == 336 then
      Inverse(336, 780, 0xe3e27a444d8d98b7fd1b1b2308169b25,
        0x28b5c7946f7c63, 0x5b77234c281b5f83, 0x55432e8e1e0a9a, 0xbf903af87a1c2da5, five, two)
    else
      Next(336, 780, five, two);
      ghost var five, two := 5 * five, 4 * two;
    if k == 337 then
      Inverse(337, 782, 0xb64ec836a47146f99748e2826cdee284,
        0x27f10e19c9459f, 0x702c6f0727a8dbbc, 0x52f5021e2b664e, 0xe8fad26e79372617, five, two)
    else
      Next(337, 782, five, two);
      ghost var five, two := 5 * five, 4 * two;
    if k == 338 then
      Inverse(338, 784, 0x91d8a02bb6c1059479071b9b8a4be869,
        0x27f10e19c9459f, 0x8c378ac8f19312ab, 0x3a60987960dd85, 0xccefb6acaf4cef28, five, two)
    else
      Next(338, 784, five, two);
      ghost var five, two := 5 * five, 8 * two;
    if k == 339 then
      Inverse(339, 787, 0xe95a99df8ace6f53f4d82c2c107973dc,
        0x62eed87215c11b, 0xd9116f49b34fec5a, 0x3a60987960dd85, 0x8015d22bed901579, five, two)
    else
      Next(339, 787, five, two);
      ghost var five, two := 5 * five, 4 * two;
    if k == 340 then
      Inverse(340, 789, 0xbaaee17fa23ebf765d79bcf00d2df649,
        0x52b5f20e9a32df, 0xe2d7fc8d3d43fc00, 0x32442547a31667, 0x89dc5f6f7784251f, five, two)
    else
      Next(340, 789, five, two);
      ghost var five, two := 5 * five, 4 * two;
    if k == 341 then
      Inverse(341, 791, 0x9558b4661b6565f84ac7ca59a424c507,
        0x3b0a37d8369186, 0xca679b646461d4e1, 0x17abba3663a159, 0x5126604c2833261f, five, two)
    else
      Next(341, 791, five, two);
      ghost var five, two := 5 * five, 8 * two;
      Inverse(342, 794, 0xeef453d6923bd65a113faa2906a13b3f,
        0x52b5f20e9a32df, 0xb138bd4e57dd1ce0, 0x366a5a59f172bb, 0x74981fc239c5c57f, five, two)
  }

  /** The table: two words for each power. */
  function PowerOfFive(q: int): (t: nat)
    requires -342 <= q <= 308
    ensures Good(q, t)
  {
    hide *;
    var k: nat := if q < 0 then 0 - q else q;
    if k < 8 then Entry0(k, q < 0)
    else if k < 16 then Entry8(k, q < 0)
    else if k < 24 then Entry16(k, q < 0)
    else if k < 32 then Entry24(k, q < 0)
    else if k < 40 then Entry32(k, q < 0)
    else if k < 48 then Entry40(k, q < 0)
    else if k < 56 then Entry48(k, q < 0)
    else if k < 64 then Entry56(k, q < 0)
    else if k < 72 then Entry64(k, q < 0)
    else if k < 80 then Entry72(k, q < 0)
    else if k < 88 then Entry80(k, q < 0)
    else if k < 96 then Entry88(k, q < 0)
    else if k < 104 then Entry96(k, q < 0)
    else if k < 112 then Entry104(k, q < 0)
    else if k < 120 then Entry112(k, q < 0)
    else if k < 128 then Entry120(k, q < 0)
    else if k < 136 then Entry128(k, q < 0)
    else if k < 144 then Entry136(k, q < 0)
    else if k < 152 then Entry144(k, q < 0)
    else if k < 160 then Entry152(k, q < 0)
    else if k < 168 then Entry160(k, q < 0)
    else if k < 176 then Entry168(k, q < 0)
    else if k < 184 then Entry176(k, q < 0)
    else if k < 192 then Entry184(k, q < 0)
    else if k < 200 then Entry192(k, q < 0)
    else if k < 208 then Entry200(k, q < 0)
    else if k < 216 then Entry208(k, q < 0)
    else if k < 224 then Entry216(k, q < 0)
    else if k < 232 then Entry224(k, q < 0)
    else if k < 240 then Entry232(k, q < 0)
    else if k < 248 then Entry240(k, q < 0)
    else if k < 256 then Entry248(k, q < 0)
    else if k < 264 then Entry256(k, q < 0)
    else if k < 272 then Entry264(k, q < 0)
    else if k < 280 then Entry272(k, q < 0)
    else if k < 288 then Entry280(k, q < 0)
    else if k < 296 then Entry288(k, q < 0)
    else if k < 304 then Entry296(k, q < 0)
    else if k < 312 then Entry304(k, q < 0)
    else if k < 320 then Entry312(k, q < 0)
    else if k < 328 then Entry320(k, q < 0)
    else if k < 336 then Entry328(k, q < 0)
    else Entry336(k, q < 0)
  }
}