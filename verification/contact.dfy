/** The contact form: the phone number composed from a country code and a
    local number, the e-mail pattern, and the chain of checks a submission
    goes through before it is recorded. */
module Contact {
  import opened Wrappers

  /** The characters Python's str.strip() removes: str.isspace(). */
  predicate IsSpace(c: char)
  {
    var n := c as int;
    (9 <= n <= 13) || (28 <= n <= 32) || n == 0x85 || n == 0xA0 || n == 0x1680
    || (0x2000 <= n <= 0x200A) || n == 0x2028 || n == 0x2029 || n == 0x202F || n == 0x205F
    || n == 0x3000
  }

  predicate AllSpace(s: string)
  {
    forall i :: 0 <= i < |s| ==> IsSpace(s[i])
  }

  /** The position of the first character at or after i that is not
      whitespace, |s| when there is none. */
  function SkipSpaces(s: string, i: nat): (n: nat)
    requires i <= |s|
    ensures i <= n <= |s|
    ensures forall j :: i <= j < n ==> IsSpace(s[j])
    ensures n < |s| ==> !IsSpace(s[n])
    decreases |s| - i
  {
    if i < |s| && IsSpace(s[i]) then SkipSpaces(s, i + 1) else i
  }

  /** The end of s[lo..hi] once its trailing whitespace is cut off. */
  function SkipSpacesBack(s: string, lo: nat, hi: nat): (m: nat)
    requires lo <= hi <= |s|
    ensures lo <= m <= hi
    ensures forall j :: m <= j < hi ==> IsSpace(s[j])
    ensures lo < m ==> !IsSpace(s[m - 1])
  {
    if lo < hi && IsSpace(s[hi - 1]) then SkipSpacesBack(s, lo, hi - 1) else hi
  }

  /** str.strip(): the leading whitespace is skipped, then the trailing
      whitespace of what is left. */
  function Strip(s: string): string
  {
    var a := SkipSpaces(s, 0);
    s[a..SkipSpacesBack(s, a, |s|)]
  }

  /** Strip keeps the middle of s between a whitespace prefix and a whitespace
      suffix, and the part it keeps neither starts nor ends with whitespace. */
  lemma StripShape(s: string)
    ensures var r := Strip(s);
            exists a, b :: 0 <= a <= b <= |s| && r == s[a..b] && AllSpace(s[..a]) && AllSpace(s[b..])
    ensures Strip(s) != [] ==> !IsSpace(Strip(s)[0]) && !IsSpace(Strip(s)[|Strip(s)| - 1])
  {
    var a := SkipSpaces(s, 0);
    var b := SkipSpacesBack(s, a, |s|);
    var front, back := s[..a], s[b..];
    assert AllSpace(front) by {
      forall i | 0 <= i < |front| ensures IsSpace(front[i]) {
        assert front[i] == s[i];
      }
    }
    assert AllSpace(back) by {
      forall i | 0 <= i < |back| ensures IsSpace(back[i]) {
        assert back[i] == s[b + i];
      }
    }
    assert Strip(s) == s[a..b];
  }

  /** Strip leaves nothing exactly when s is all whitespace. */
  lemma StripEmptyIff(s: string)
    ensures Strip(s) == [] <==> AllSpace(s)
  {
    var a := SkipSpaces(s, 0);
    var b := SkipSpacesBack(s, a, |s|);
    assert |Strip(s)| == b - a;
    if AllSpace(s) {
      assert a == |s|;
    }
    if a == b {
      assert forall i :: 0 <= i < |s| ==> IsSpace(s[i]);
    }
  }

  /** The dialling codes, as the form's dictionary lists them (194 entries,
      written in blocks of 25 so that a proof about one entry can look at one
      block). */
  function CountryCodes(): (codes: seq<(string, string)>)
  {
    CountryBlock(0) + CountryBlock(1) + CountryBlock(2) + CountryBlock(3)
    + CountryBlock(4) + CountryBlock(5) + CountryBlock(6) + CountryBlock(7)
  }

  function CountryBlock(k: nat): seq<(string, string)>
  {
    if k == 0 then
      [("Afghanistan (+93)", "+93"), ("Albania (+355)", "+355"), ("Algeria (+213)", "+213"),
       ("Andorra (+376)", "+376"), ("Angola (+244)", "+244"),
       ("Antigua and Barbuda (+1-268)", "+1-268"), ("Argentina (+54)", "+54"),
       ("Armenia (+374)", "+374"), ("Australia (+61)", "+61"), ("Austria (+43)", "+43"),
       ("Azerbaijan (+994)", "+994"), ("Bahamas (+1-242)", "+1-242"), ("Bahrain (+973)", "+973"),
       ("Bangladesh (+880)", "+880"), ("Barbados (+1-246)", "+1-246"), ("Belarus (+375)", "+375"),
       ("Belgium (+32)", "+32"), ("Belize (+501)", "+501"), ("Benin (+229)", "+229"),
       ("Bhutan (+975)", "+975"), ("Bolivia (+591)", "+591"),
       ("Bosnia and Herzegovina (+387)", "+387"), ("Botswana (+267)", "+267"),
       ("Brazil (+55)", "+55"), ("Brunei (+673)", "+673")]
    else if k == 1 then
      [("Bulgaria (+359)", "+359"), ("Burkina Faso (+226)", "+226"), ("Burundi (+257)", "+257"),
       ("Cabo Verde (+238)", "+238"), ("Cambodia (+855)", "+855"), ("Cameroon (+237)", "+237"),
       ("Canada (+1)", "+1"), ("Central African Republic (+236)", "+236"), ("Chad (+235)", "+235"),
       ("Chile (+56)", "+56"), ("China (+86)", "+86"), ("Colombia (+57)", "+57"),
       ("Comoros (+269)", "+269"), ("Congo, Republic (+242)", "+242"), ("Congo, DR (+243)", "+243"),
       ("Costa Rica (+506)", "+506"), ("Croatia (+385)", "+385"), ("Cuba (+53)", "+53"),
       ("Cyprus (+357)", "+357"), ("Czech Republic (+420)", "+420"), ("Denmark (+45)", "+45"),
       ("Djibouti (+253)", "+253"), ("Dominica (+1-767)", "+1-767"),
       ("Dominican Republic (+1-809)", "+1-809"), ("Ecuador (+593)", "+593")]
    else if k == 2 then
      [("Egypt (+20)", "+20"), ("El Salvador (+503)", "+503"), ("Equatorial Guinea (+240)", "+240"),
       ("Eritrea (+291)", "+291"), ("Estonia (+372)", "+372"), ("Eswatini (+268)", "+268"),
       ("Ethiopia (+251)", "+251"), ("Fiji (+679)", "+679"), ("Finland (+358)", "+358"),
       ("France (+33)", "+33"), ("Gabon (+241)", "+241"), ("Gambia (+220)", "+220"),
       ("Georgia (+995)", "+995"), ("Germany (+49)", "+49"), ("Ghana (+233)", "+233"),
       ("Greece (+30)", "+30"), ("Grenada (+1-473)", "+1-473"), ("Guatemala (+502)", "+502"),
       ("Guinea (+224)", "+224"), ("Guinea-Bissau (+245)", "+245"), ("Guyana (+592)", "+592"),
       ("Haiti (+509)", "+509"), ("Honduras (+504)", "+504"), ("Hungary (+36)", "+36"),
       ("Iceland (+354)", "+354")]
    else if k == 3 then
      [("India (+91)", "+91"), ("Indonesia (+62)", "+62"), ("Iran (+98)", "+98"),
       ("Iraq (+964)", "+964"), ("Ireland (+353)", "+353"), ("Israel (+972)", "+972"),
       ("Italy (+39)", "+39"), ("Jamaica (+1-876)", "+1-876"), ("Japan (+81)", "+81"),
       ("Jordan (+962)", "+962"), ("Kazakhstan (+7)", "+7"), ("Kenya (+254)", "+254"),
       ("Kiribati (+686)", "+686"), ("Korea, North (+850)", "+850"), ("Korea, South (+82)", "+82"),
       ("Kosovo (+383)", "+383"), ("Kuwait (+965)", "+965"), ("Kyrgyzstan (+996)", "+996"),
       ("Laos (+856)", "+856"), ("Latvia (+371)", "+371"), ("Lebanon (+961)", "+961"),
       ("Lesotho (+266)", "+266"), ("Liberia (+231)", "+231"), ("Libya (+218)", "+218"),
       ("Liechtenstein (+423)", "+423")]
    else if k == 4 then
      [("Lithuania (+370)", "+370"), ("Luxembourg (+352)", "+352"), ("Madagascar (+261)", "+261"),
       ("Malawi (+265)", "+265"), ("Malaysia (+60)", "+60"), ("Maldives (+960)", "+960"),
       ("Mali (+223)", "+223"), ("Malta (+356)", "+356"), ("Marshall Islands (+692)", "+692"),
       ("Mauritania (+222)", "+222"), ("Mauritius (+230)", "+230"), ("Mexico (+52)", "+52"),
       ("Micronesia (+691)", "+691"), ("Moldova (+373)", "+373"), ("Monaco (+377)", "+377"),
       ("Mongolia (+976)", "+976"), ("Montenegro (+382)", "+382"), ("Morocco (+212)", "+212"),
       ("Mozambique (+258)", "+258"), ("Myanmar (+95)", "+95"), ("Namibia (+264)", "+264"),
       ("Nauru (+674)", "+674"), ("Nepal (+977)", "+977"), ("Netherlands (+31)", "+31"),
       ("New Zealand (+64)", "+64")]
    else if k == 5 then
      [("Nicaragua (+505)", "+505"), ("Niger (+227)", "+227"), ("Nigeria (+234)", "+234"),
       ("North Macedonia (+389)", "+389"), ("Norway (+47)", "+47"), ("Oman (+968)", "+968"),
       ("Pakistan (+92)", "+92"), ("Palau (+680)", "+680"), ("Panama (+507)", "+507"),
       ("Papua New Guinea (+675)", "+675"), ("Paraguay (+595)", "+595"), ("Peru (+51)", "+51"),
       ("Philippines (+63)", "+63"), ("Poland (+48)", "+48"), ("Portugal (+351)", "+351"),
       ("Qatar (+974)", "+974"), ("Romania (+40)", "+40"), ("Russia (+7)", "+7"),
       ("Rwanda (+250)", "+250"), ("Saint Kitts and Nevis (+1-869)", "+1-869"),
       ("Saint Lucia (+1-758)", "+1-758"), ("Saint Vincent (+1-784)", "+1-784"),
       ("Samoa (+685)", "+685"), ("San Marino (+378)", "+378"),
       ("Sao Tome and Principe (+239)", "+239")]
    else if k == 6 then
      [("Saudi Arabia (+966)", "+966"), ("Senegal (+221)", "+221"), ("Serbia (+381)", "+381"),
       ("Seychelles (+248)", "+248"), ("Sierra Leone (+232)", "+232"), ("Singapore (+65)", "+65"),
       ("Slovakia (+421)", "+421"), ("Slovenia (+386)", "+386"), ("Solomon Islands (+677)", "+677"),
       ("Somalia (+252)", "+252"), ("South Africa (+27)", "+27"), ("South Sudan (+211)", "+211"),
       ("Sri Lanka (+94)", "+94"), ("Sudan (+249)", "+249"), ("Suriname (+597)", "+597"),
       ("Sweden (+46)", "+46"), ("Switzerland (+41)", "+41"), ("Syria (+963)", "+963"),
       ("Taiwan (+886)", "+886"), ("Tajikistan (+992)", "+992"), ("Tanzania (+255)", "+255"),
       ("Thailand (+66)", "+66"), ("Timor-Leste (+670)", "+670"), ("Togo (+228)", "+228"),
       ("Tonga (+676)", "+676")]
    else
      [("Trinidad and Tobago (+1-868)", "+1-868"), ("Tunisia (+216)", "+216"),
       ("Turkey (+90)", "+90"), ("Turkmenistan (+993)", "+993"), ("Tuvalu (+688)", "+688"),
       ("Uganda (+256)", "+256"), ("Ukraine (+380)", "+380"), ("United Arab Emirates (+971)", "+971"),
       ("United Kingdom (+44)", "+44"), ("United States (+1)", "+1"), ("Uruguay (+598)", "+598"),
       ("Uzbekistan (+998)", "+998"), ("Vanuatu (+678)", "+678"), ("Vatican City (+39)", "+39"),
       ("Venezuela (+58)", "+58"), ("Vietnam (+84)", "+84"), ("Yemen (+967)", "+967"),
       ("Zambia (+260)", "+260"), ("Zimbabwe (+263)", "+263")]
  }

  /** The pre-selected country. */
  const DefaultCountry: string := "Switzerland (+41)"

  function Keys(codes: seq<(string, string)>): (keys: seq<string>)
    ensures |keys| == |codes| && forall i :: 0 <= i < |codes| ==> keys[i] == codes[i].0
  {
    seq(|codes|, i requires 0 <= i < |codes| => codes[i].0)
  }

  /** list.index(x): the first position of x, for an x that occurs. */
  function IndexOf<T(==)>(xs: seq<T>, x: T): (i: nat)
    requires x in xs
    ensures i < |xs| && xs[i] == x && x !in xs[..i]
  {
    if xs[0] == x then 0 else 1 + IndexOf(xs[1..], x)
  }

  /** The select box's default position: that of "Switzerland (+41)" when it is
      among the options, the first option otherwise. */
  function DefaultIndex(keys: seq<string>): nat
  {
    if DefaultCountry in keys then IndexOf(keys, DefaultCountry) else 0
  }

  /** The form's list contains "Switzerland (+41)", so the box opens on it. */
  lemma DefaultIsSwitzerland()
    ensures DefaultIndex(Keys(CountryCodes())) < |CountryCodes()|
    ensures Keys(CountryCodes())[DefaultIndex(Keys(CountryCodes()))] == DefaultCountry
  {
    var codes := CountryCodes();
    SwitzerlandListed();
    var i :| 0 <= i < |codes| && codes[i] == (DefaultCountry, "+41");
    assert Keys(codes)[i] == DefaultCountry;
  }

  lemma SwitzerlandListed()
    ensures (DefaultCountry, "+41") in CountryCodes()
  {
    SwitzerlandInBlock();
  }

  lemma SwitzerlandInBlock()
    ensures (DefaultCountry, "+41") in CountryBlock(6)
  {
    assert CountryBlock(6)[16] == (DefaultCountry, "+41");
  }

  /** country_codes[country]: the code of the first entry with that key. */
  function Lookup(codes: seq<(string, string)>, key: string): (code: Option<string>)
    ensures code.None? <==> key !in Keys(codes)
  {
    if codes == [] then None
    else if codes[0].0 == key then Some(codes[0].1)
    else
      assert Keys(codes)[1..] == Keys(codes[1..]);
      Lookup(codes[1..], key)
  }

  /** Every option of the select box is a key of the dictionary, so looking it
      up succeeds, and it yields that entry's code when keys are distinct. */
  lemma {:induction false} LookupOption(codes: seq<(string, string)>, i: nat)
    requires i < |codes|
    requires forall j, k :: 0 <= j < k < |codes| ==> codes[j].0 != codes[k].0
    ensures Lookup(codes, codes[i].0) == Some(codes[i].1)
  {
    if i > 0 {
      LookupOption(codes[1..], i - 1);
    }
  }

  /** full_phone: set only when the local number has non-whitespace content,
      and then the country's code, a space and the stripped number. */
  function FullPhone(code: string, local: string): (phone: Option<string>)
    ensures phone.Some? <==> !AllSpace(local)
    ensures phone.Some? ==> phone.value == code + " " + Strip(local)
  {
    StripEmptyIff(local);
    if Strip(local) != "" then Some(code + " " + Strip(local)) else None
  }

  /** The e-mail pattern ^[^@]+@[^@]+\.[^@]+$ as re.match reads it: a
      non-empty run without '@', an '@', a non-empty run without '@', a '.',
      and a non-empty run without '@' up to the end. */
  ghost predicate MatchesEmailPattern(s: string)
  {
    exists a, b :: 0 < a && a + 1 < b && b + 1 < |s| && s[a] == '@' && s[b] == '.'
                   && '@' !in s[..a] && '@' !in s[a + 1..b] && '@' !in s[b + 1..]
  }

  /** The check the form applies, written as a scan: exactly one '@', with
      text before it, and a '.' after it that has text on both sides. */
  function EmailAccepted(s: string): (ok: bool)
  {
    '@' in s
    && var k := IndexOf(s, '@');
       0 < k && '@' !in s[k + 1..] && k + 3 < |s| + 1 && '.' in s[k + 2..|s| - 1]
  }

  /** Every string the scan accepts matches the pattern. */
  lemma EmailAcceptedMatches(s: string)
    requires EmailAccepted(s)
    ensures MatchesEmailPattern(s)
  {
    var k := IndexOf(s, '@');
    var t := s[k + 2..|s| - 1];
    var p :| 0 <= p < |t| && t[p] == '.';
    var b := k + 2 + p;
    assert s[b] == '.';
    assert s[k + 1..b] == s[k + 1..][..b - k - 1];
    assert s[b + 1..] == s[k + 1..][b - k..];
  }

  /** Every string the pattern matches is accepted by the scan. */
  lemma MatchesEmailAccepted(s: string)
    requires MatchesEmailPattern(s)
    ensures EmailAccepted(s)
  {
    var a, b :| 0 < a && a + 1 < b && b + 1 < |s| && s[a] == '@' && s[b] == '.'
                && '@' !in s[..a] && '@' !in s[a + 1..b] && '@' !in s[b + 1..];
    IndexOfFirst(s, '@', a);
    var rest := s[a + 1..];
    forall j | 0 <= j < |rest| ensures rest[j] != '@' {
      if a + 1 + j < b {
        assert rest[j] == s[a + 1..b][j];
      } else if a + 1 + j > b {
        assert rest[j] == s[b + 1..][a + j - b];
      }
    }
    var mid := s[a + 2..|s| - 1];
    assert mid[b - a - 2] == '.';
  }

  /** The first position of x is the one no earlier element equals. */
  lemma {:induction false} IndexOfFirst<T>(xs: seq<T>, x: T, i: nat)
    requires i < |xs| && xs[i] == x && x !in xs[..i]
    ensures IndexOf(xs, x) == i
  {
    if i > 0 {
      assert xs[0] == xs[..i][0];
      assert xs[1..][..i - 1] == xs[1..i];
      IndexOfFirst(xs[1..], x, i - 1);
    }
  }

  /** The scan accepts exactly the strings the pattern matches. */
  lemma EmailAcceptedIffPattern(s: string)
    ensures EmailAccepted(s) <==> MatchesEmailPattern(s)
  {
    if EmailAccepted(s) {
      EmailAcceptedMatches(s);
    }
    if MatchesEmailPattern(s) {
      MatchesEmailAccepted(s);
    }
  }

  /** The fields of the form. country is the chosen option of the select box,
      attachment the uploaded file's name if any. */
  datatype Form = Form(name: string, email: string, country: string, local: string, topic: string,
                       message: string, attachment: Option<string>, consent: bool)

  /** What a submission shows. */
  datatype Outcome =
    | MissingFields        // error: name, e-mail and message are required
    | InvalidEmail         // error: the e-mail does not match the pattern
    | ConsentMissing       // warning: the consent box is not ticked
    | Recorded(summary: seq<string>)

  /** The lines of the "See your submitted information" box. */
  function Summary(f: Form, phone: Option<string>): (lines: seq<string>)
    ensures |lines| == if phone.Some? then 7 else 6
    ensures lines[0] == "**Name:** " + f.name && lines[1] == "**Email:** " + f.email
    ensures phone.Some? ==> lines[2] == "**Phone:** " + phone.value
    ensures lines[|lines| - 1] == "**Attachment uploaded:** " + (if f.attachment.Some? then f.attachment.value else "None")
  {
    ["**Name:** " + f.name, "**Email:** " + f.email]
    + (if phone.Some? then ["**Phone:** " + phone.value] else [])
    + ["**Topic:** " + f.topic, "**Message:**", f.message]
    + ["**Attachment uploaded:** " + (if f.attachment.Some? then f.attachment.value else "None")]
  }

  /** The submit logic: the first failing check decides the message. */
  function Submit(codes: seq<(string, string)>, f: Form): (o: Outcome)
    requires f.country in Keys(codes)
  {
    if f.name == "" || f.email == "" || f.message == "" then MissingFields
    else if !EmailAccepted(f.email) then InvalidEmail
    else if !f.consent then ConsentMissing
    else Recorded(Summary(f, FullPhone(Lookup(codes, f.country).value, f.local)))
  }

  /** Exactly one outcome, in priority order: a missing field, then an
      e-mail the pattern rejects, then a missing consent, else success. */
  lemma SubmitOutcome(codes: seq<(string, string)>, f: Form)
    requires f.country in Keys(codes)
    ensures Submit(codes, f) == MissingFields <==> (f.name == "" || f.email == "" || f.message == "")
    ensures Submit(codes, f) == InvalidEmail <==>
              (f.name != "" && f.email != "" && f.message != "" && !MatchesEmailPattern(f.email))
    ensures Submit(codes, f) == ConsentMissing <==>
              (f.name != "" && f.email != "" && f.message != "" && MatchesEmailPattern(f.email) && !f.consent)
    ensures Submit(codes, f).Recorded? <==>
              (f.name != "" && f.email != "" && f.message != "" && MatchesEmailPattern(f.email) && f.consent)
  {
    EmailAcceptedIffPattern(f.email);
  }

  /** The required-field check tests emptiness only: a name and a message made
      of blanks pass it. */
  lemma BlankFieldsPass(codes: seq<(string, string)>, f: Form)
    requires f.country in Keys(codes)
    requires AllSpace(f.name) && AllSpace(f.message) && f.name != "" && f.message != ""
    requires MatchesEmailPattern(f.email) && f.consent
    ensures Submit(codes, f).Recorded?
  {
    SubmitOutcome(codes, f);
  }

  /** A recorded submission shows a phone line exactly when the local number
      has non-whitespace content, that line carrying the chosen country's
      code, and its last line names the attachment or says "None". */
  lemma SummaryLines(codes: seq<(string, string)>, f: Form)
    requires f.country in Keys(codes) && Submit(codes, f).Recorded?
    ensures |Submit(codes, f).summary| == if AllSpace(f.local) then 6 else 7
    ensures Submit(codes, f).summary[0] == "**Name:** " + f.name
    ensures Submit(codes, f).summary[1] == "**Email:** " + f.email
    ensures !AllSpace(f.local) ==>
              Submit(codes, f).summary[2] == "**Phone:** " + Lookup(codes, f.country).value + " " + Strip(f.local)
    ensures Submit(codes, f).summary[|Submit(codes, f).summary| - 1]
            == "**Attachment uploaded:** " + (if f.attachment.Some? then f.attachment.value else "None")
  {
    var code := Lookup(codes, f.country).value;
    var phone := FullPhone(code, f.local);
    SubmitRecorded(codes, f);
    if !AllSpace(f.local) {
      assert "**Phone:** " + (code + " " + Strip(f.local)) == "**Phone:** " + code + " " + Strip(f.local);
    }
  }

  /** A recorded submission shows the summary of the form and its phone. */
  lemma SubmitRecorded(codes: seq<(string, string)>, f: Form)
    requires f.country in Keys(codes) && Submit(codes, f).Recorded?
    ensures Submit(codes, f).summary == Summary(f, FullPhone(Lookup(codes, f.country).value, f.local))
  {
    assert !(f.name == "" || f.email == "" || f.message == "");
    assert EmailAccepted(f.email);
    assert f.consent;
  }
}
