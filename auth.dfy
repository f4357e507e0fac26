/**
 * Signing in and signing up. Sign-in looks the user up by email alone; the
 * password field is never compared. Sign-up validates the form in a fixed
 * order and stores a new user with no points and the default card theme.
 */
module Auth {
  import opened Wrappers
  import opened Records
  import Seqs
  import Text
  import opened Storage

  /** The universities offered by the sign-up form, in display order. */
  const Universities: seq<string> := [
    "Universiti Malaya (UM)",
    "Universiti Kebangsaan Malaysia (UKM)",
    "Universiti Putra Malaysia (UPM)",
    "Universiti Sains Malaysia (USM)",
    "Universiti Teknologi Malaysia (UTM)",
    "Universiti Teknologi MARA (UiTM)",
    "Universiti Islam Antarabangsa Malaysia (UIAM)",
    "Universiti Utara Malaysia (UUM)",
    "Universiti Malaysia Sarawak (UNIMAS)",
    "Universiti Malaysia Sabah (UMS)",
    "Universiti Pendidikan Sultan Idris (UPSI)",
    "Universiti Sains Islam Malaysia (USIM)",
    "Universiti Teknikal Malaysia Melaka (UTeM)",
    "Universiti Malaysia Terengganu (UMT)",
    "Universiti Tun Hussein Onn Malaysia (UTHM)",
    "Universiti Malaysia Pahang Al-Sultan Abdullah (UMPSA)",
    "Universiti Malaysia Perlis (UniMAP)",
    "Universiti Malaysia Kelantan (UMK)",
    "Universiti Sultan Zainal Abidin (UniSZA)",
    "Universiti Pertahanan Nasional Malaysia (UPNM)",
    "Taylor's University",
    "Sunway University",
    "Monash University Malaysia",
    "University of Nottingham Malaysia",
    "Heriot-Watt University Malaysia",
    "UCSI University",
    "Asia Pacific University (APU)",
    "Multimedia University (MMU)",
    "HELP University",
    "INTI International University",
    "SEGi University",
    "Limkokwing University",
    "Management and Science University (MSU)",
    "Universiti Tunku Abdul Rahman (UTAR)",
    "Tunku Abdul Rahman University of Management and Technology (TAR UMT)",
    "Xiamen University Malaysia",
    "University of Reading Malaysia",
    "Curtin University Malaysia",
    "Swinburne University of Technology Sarawak",
    "Newcastle University Medicine Malaysia",
    "International Medical University (IMU)",
    "Perdana University",
    "MAHSA University",
    "Manipal International University",
    "Quest International University",
    "AIMST University",
    "Universiti Tenaga Nasional (UNITEN)",
    "Universiti Kuala Lumpur (UniKL)",
    "Binary University",
    "Nilai University",
    "Kolej Universiti Tunku Abdul Rahman",
    "Kolej MDIS Malaysia",
    "Raffles University"
  ]

  /** The dropdown entry that lets the user type a university name. */
  const Others: string := "Others"

  const DefaultTheme: Theme := Theme("#1a1a2e", "#ffffff", "#667eea")

  const FillInAll: string := "Please fill in all fields"
  const EnterUniversity: string := "Please enter your university name"
  const EmailTaken: string := "Email already registered"
  const InvalidLogin: string := "Invalid email or password"

  /** The result of submitting the form: the user signed in, or the error
      message shown. */
  datatype Outcome = SignedIn(user: User) | Rejected(error: string)

  predicate Matches(uni: string, search: string) {
    Text.Contains(Text.Lower(uni), Text.Lower(search))
  }

  /** `filteredUniversities` over a list of names: those whose lowercased
      name contains the lowercased search text, in list order. */
  function FilterUniversities(unis: seq<string>, search: string): (r: seq<string>)
    ensures forall u :: u in r <==> u in unis && Matches(u, search)
    ensures Seqs.Subsequence(r, unis)
  {
    Seqs.FilterSubsequence(unis, (u: string) => Matches(u, search));
    Seqs.Filter(unis, (u: string) => Matches(u, search))
  }

  lemma ContainsEmpty(s: string)
    ensures Text.Contains(s, "")
  {
    assert Text.StartsWith(s, "");
  }

  /** With nothing typed, every university is offered. */
  lemma EmptySearchListsAll(unis: seq<string>)
    ensures FilterUniversities(unis, "") == unis
  {
    forall j | 0 <= j < |unis|
      ensures Matches(unis[j], "")
    {
      ContainsEmpty(Text.Lower(unis[j]));
    }
    Seqs.FilterAll(unis, (u: string) => Matches(u, ""));
  }

  /** The search ignores letter case. */
  lemma SearchIgnoresCase(unis: seq<string>, search: string)
    ensures FilterUniversities(unis, Text.Lower(search)) == FilterUniversities(unis, search)
  {
    LowerIdempotent(search);
    FilterAgrees(unis, Text.Lower(search), search);
  }

  lemma LowerIdempotent(s: string)
    ensures Text.Lower(Text.Lower(s)) == Text.Lower(s)
  {
  }

  lemma {:induction false} FilterAgrees(s: seq<string>, a: string, b: string)
    requires Text.Lower(a) == Text.Lower(b)
    ensures Seqs.Filter(s, (u: string) => Matches(u, a)) == Seqs.Filter(s, (u: string) => Matches(u, b))
  {
    if s != [] {
      FilterAgrees(s[1..], a, b);
    }
  }

  /** `getActualUniversity`: the typed name when 'Others' is chosen. */
  function ActualUniversity(university: string, custom: string): (r: string)
    ensures university == Others ==> r == custom
    ensures university != Others ==> r == university
  {
    if university == Others then custom else university
  }

  /** Sign-in: the first stored user with the email, whatever the password. */
  function Login(users: seq<User>, email: string): (r: Outcome)
    ensures r.SignedIn? <==> exists j :: 0 <= j < |users| && users[j].email == email
    ensures r.SignedIn? ==> r.user in users && r.user.email == email
    ensures r.Rejected? ==> r.error == InvalidLogin
  {
    var user := Seqs.Find(users, (u: User) => u.email == email);
    if user.None? then Rejected(InvalidLogin) else SignedIn(user.value)
  }

  /** The user sign-up creates: id `Date.now().toString()`, no points, the
      default theme, and no major or picture yet. */
  function NewUser(email: string, name: string, university: string, now: nat): (u: User)
    ensures u.id == Text.NatToString(now) && u.email == email && u.name == name && u.university == university
    ensures u.points == 0 && u.studentCardTheme == Some(DefaultTheme) && u.createdAt == now
    ensures u.major.None? && u.profileImage.None?
  {
    User(Text.NatToString(now), email, name, university, None, None, 0, Some(DefaultTheme), now)
  }

  /** Sign-up's checks, in order: every field filled (the university being
      the typed one when 'Others' is chosen), a typed university that is not
      only spaces, and an email nobody has. */
  function SignUp(users: seq<User>, name: string, email: string, password: string,
                  university: string, custom: string, now: nat): (r: Outcome)
    ensures var actual := ActualUniversity(university, custom);
      name == "" || email == "" || password == "" || actual == "" ==> r == Rejected(FillInAll)
    ensures r.SignedIn? <==>
      name != "" && email != "" && password != "" && ActualUniversity(university, custom) != ""
      && !(university == Others && Text.IsBlank(custom))
      && forall j :: 0 <= j < |users| ==> users[j].email != email
    ensures r.SignedIn? ==> r.user == NewUser(email, name, ActualUniversity(university, custom), now)
    ensures r.Rejected? ==> r.error in {FillInAll, EnterUniversity, EmailTaken}
  {
    var actual := ActualUniversity(university, custom);
    if name == "" || email == "" || password == "" || actual == "" then Rejected(FillInAll)
    else if university == Others && Text.IsBlank(custom) then Rejected(EnterUniversity)
    else if exists j :: 0 <= j < |users| && users[j].email == email then Rejected(EmailTaken)
    else SignedIn(NewUser(email, name, actual, now))
  }

  /** Which check rejects: blank custom names that are not empty get their
      own message, and a taken email is only reported for an otherwise
      valid form. */
  lemma SignUpErrors(users: seq<User>, name: string, email: string, password: string,
                     university: string, custom: string, now: nat)
    ensures var r := SignUp(users, name, email, password, university, custom, now);
      && (r == Rejected(EnterUniversity) <==>
            name != "" && email != "" && password != "" && university == Others
            && custom != "" && Text.IsBlank(custom))
      && (r == Rejected(EmailTaken) ==> exists j :: 0 <= j < |users| && users[j].email == email)
  {
  }

  /** A new account can sign in straight away with its email, and gets that
      very account, whatever the store held before. */
  lemma SignUpThenLogin(users: seq<User>, name: string, email: string, password: string,
                        university: string, custom: string, now: nat)
    requires SignUp(users, name, email, password, university, custom, now).SignedIn?
    ensures var u := SignUp(users, name, email, password, university, custom, now).user;
      Login(Seqs.Upsert(users, u, UserId), email) == SignedIn(u)
  {
    var u := SignUp(users, name, email, password, university, custom, now).user;
    var after := Seqs.Upsert(users, u, UserId);
    Seqs.UpsertFrame(users, u, UserId);
    var r := Login(after, email);
    var j :| 0 <= j < |after| && after[j] == u;
    assert r.SignedIn?;
    Seqs.UpsertMembers(users, u, UserId, r.user);
  }

  /** A signed-up user always has a university, and a typed one is not only
      spaces. */
  lemma SignUpUniversity(users: seq<User>, name: string, email: string, password: string,
                         university: string, custom: string, now: nat)
    requires SignUp(users, name, email, password, university, custom, now).SignedIn?
    ensures var u := SignUp(users, name, email, password, university, custom, now).user;
      u.university != "" && (university == Others ==> u.university == custom && !Text.IsBlank(custom))
  {
  }

  class AuthForm {
    const store: Store
    var isLogin: bool
    var email: string
    var password: string
    var name: string
    var university: string
    var customUniversity: string
    var showUniversityDropdown: bool
    var universitySearch: string
    var error: string
    var loading: bool

    constructor(store: Store)
      ensures this.store == store && isLogin && email == "" && password == "" && name == ""
      ensures university == "" && customUniversity == "" && !showUniversityDropdown
      ensures universitySearch == "" && error == "" && !loading
    {
      this.store := store;
      isLogin, email, password, name := true, "", "", "";
      university, customUniversity, showUniversityDropdown := "", "", false;
      universitySearch, error, loading := "", "", false;
    }

    /** `handleUniversitySelect`: the choice is taken, the search cleared and
        the dropdown closed; choosing anything but 'Others' also clears the
        typed name. */
    method SelectUniversity(uni: string)
      modifies this`university, this`universitySearch, this`showUniversityDropdown, this`customUniversity
      ensures university == uni && universitySearch == "" && !showUniversityDropdown
      ensures uni != Others ==> customUniversity == ""
      ensures uni == Others ==> customUniversity == old(customUniversity)
    {
      university, universitySearch, showUniversityDropdown := uni, "", false;
      if uni != Others {
        customUniversity := "";
      }
    }

    /** `handleSubmit`: sign-in or sign-up as the form's mode says. A rejected
        form shows its message and changes nothing stored; a sign-up stores
        the new user (which rebuilds the leaderboard); a success records the
        current user. */
    method Submit(now: nat) returns (outcome: Outcome)
      modifies this`error, this`loading, store`users, store`leaderboard, store`currentUserId
      ensures outcome == if isLogin then Login(old(store.users), email)
        else SignUp(old(store.users), name, email, password, university, customUniversity, now)
      ensures !loading
      ensures outcome.Rejected? ==>
        error == outcome.error && store.users == old(store.users)
        && store.leaderboard == old(store.leaderboard) && store.currentUserId == old(store.currentUserId)
      ensures outcome.SignedIn? ==> error == "" && store.currentUserId == outcome.user.id
      ensures outcome.SignedIn? && isLogin ==>
        store.users == old(store.users) && store.leaderboard == old(store.leaderboard)
      ensures outcome.SignedIn? && !isLogin ==>
        store.users == Seqs.Upsert(old(store.users), outcome.user, UserId)
        && store.leaderboard == Leaderboard(store.users)
    {
      error := "";
      loading := true;
      if isLogin {
        outcome := Login(store.users, email);
      } else {
        outcome := SignUp(store.users, name, email, password, university, customUniversity, now);
      }
      if outcome.Rejected? {
        error := outcome.error;
        loading := false;
        return;
      }
      if !isLogin {
        store.SaveUser(outcome.user);
      }
      store.SetCurrentUser(outcome.user.id);
      loading := false;
    }
  }
}
