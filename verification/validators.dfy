/**
 * Client-side checks that decide whether a request is sent: the change-
 * password form, the reset-password form with its email pattern, and the
 * avatar URL built from a profile name.
 */
module Validators {
  import opened Wrappers
  import opened Text
  import opened ApiClient

  // ---------------------------------------------------------------------------
  // change-password.tsx

  datatype Outcome = Alert(title: string, message: string) | Send(request: FetchRequest)

  const EmptyPasswords := "Password lama & baru wajib diisi."
  const Mismatch := "Konfirmasi password tidak cocok."

  /** The JSON object `handleChange` sends: old and new password, never the confirmation. */
  function PasswordBody(oldPass: string, newPass: string): (d: Data)
    ensures d.JsonObject? && |d.fields| == 2
    ensures d.fields[0] == ("old_password", oldPass) && d.fields[1] == ("new_password", newPass)
  {
    JsonObject([("old_password", oldPass), ("new_password", newPass)])
  }

  /** `handleChange`: emptiness first, then the confirmation, then a PUT. */
  function ChangePassword(oldPass: string, newPass: string, confirm: string, token: Option<string>): (o: Outcome)
    ensures oldPass == "" || newPass == "" ==> o == Alert("Validasi", EmptyPasswords)
    ensures oldPass != "" && newPass != "" && newPass != confirm ==> o == Alert("Validasi", Mismatch)
    ensures o.Send? <==> oldPass != "" && newPass != "" && newPass == confirm
    ensures o.Send? ==> o.request == Put("/auth/change-password", PasswordBody(oldPass, newPass), token)
  {
    if oldPass == "" || newPass == "" then Alert("Validasi", EmptyPasswords)
    else if newPass != confirm then Alert("Validasi", Mismatch)
    else Send(Put("/auth/change-password", PasswordBody(oldPass, newPass), token))
  }

  /** What is sent depends on the two passwords only: the confirmation merely gates it. */
  lemma ConfirmationNotSent(oldPass: string, newPass: string, token: Option<string>)
    requires oldPass != "" && newPass != ""
    ensures var o := ChangePassword(oldPass, newPass, newPass, token);
            o.Send? && o.request.body == Some(Stringified([("old_password", oldPass), ("new_password", newPass)]))
            && o.request.url == ApiUrl + "/auth/change-password"
  {
  }

  // ---------------------------------------------------------------------------
  // resetPassword.tsx

  const EmptyEmail := "Mohon isi alamat email Anda."
  const BadEmail := "Mohon masukkan format email yang benar."

  /** The reset screen submits an email to the (stubbed) reset call, or alerts. */
  datatype ResetOutcome = ResetAlert(title: string, message: string) | RequestReset(email: string)

  /**
   * `/\S+@\S+\.\S+/` matches at `at` and `dot`: a non-space before the `@`, a
   * non-empty non-space run from after the `@` up to the `.`, and a non-space after it.
   */
  predicate EmailAt(s: string, at: nat, dot: nat) {
    && 1 <= at && at + 1 < dot && dot + 1 < |s|
    && s[at] == '@' && s[dot] == '.'
    && !IsSpace(s[at - 1])
    && NoSpace(s[at + 1..dot])
    && !IsSpace(s[dot + 1])
  }

  /** `emailRegex.test(s)`: the pattern is unanchored, so any such position will do. */
  predicate EmailMatches(s: string) {
    exists at: nat, dot: nat | at < dot < |s| :: EmailAt(s, at, dot)
  }

  /**
   * The test as an explicit search: for each `@` with a non-space before it,
   * walk the non-space run after it looking for a `.` with a non-space after it.
   */
  method TestEmail(s: string) returns (found: bool)
    ensures found <==> EmailMatches(s)
  {
    var at := 1;
    while at < |s|
      invariant 1 <= at
      invariant forall a: nat, d: nat | a < at && d < |s| :: !EmailAt(s, a, d)
    {
      if s[at] == '@' && !IsSpace(s[at - 1]) {
        var k := at + 1;
        while k < |s| && !IsSpace(s[k])
          invariant at + 1 <= k <= |s|
          invariant NoSpace(s[at + 1..k])
          invariant forall d: nat | d < k :: !EmailAt(s, at, d)
        {
          if k > at + 1 && s[k] == '.' && k + 1 < |s| && !IsSpace(s[k + 1]) {
            assert EmailAt(s, at, k);
            return true;
          }
          assert s[at + 1..k + 1] == s[at + 1..k] + [s[k]];
          k := k + 1;
        }
        forall d: nat | k < d < |s| ensures !EmailAt(s, at, d) {
          assert s[at + 1..d][k - at - 1] == s[k];
        }
      }
      at := at + 1;
    }
    return false;
  }

  /** `handleReset`: emptiness first, then the pattern. */
  function HandleReset(email: string): (o: ResetOutcome)
    ensures email == "" ==> o == ResetAlert("Perhatian", EmptyEmail)
    ensures email != "" && !EmailMatches(email) ==> o == ResetAlert("Format Salah", BadEmail)
    ensures o.RequestReset? <==> EmailMatches(email)
    ensures o.RequestReset? ==> o.email == email
  {
    if email == "" then ResetAlert("Perhatian", EmptyEmail)
    else if !EmailMatches(email) then ResetAlert("Format Salah", BadEmail)
    else RequestReset(email)
  }

  /** A string the pattern matches is never empty, so the two alerts never compete. */
  lemma MatchImpliesNonEmpty(s: string)
    requires EmailMatches(s)
    ensures |s| >= 5
  {
  }

  /** The pattern is unanchored: text around a match does not undo it. */
  lemma EmailMatchesInContext(pre: string, s: string, post: string)
    requires EmailMatches(s)
    ensures EmailMatches(pre + s + post)
  {
    var at: nat, dot: nat :| at < dot < |s| && EmailAt(s, at, dot);
    var t := pre + s + post;
    assert t[|pre| + at + 1..|pre| + dot] == s[at + 1..dot];
    assert EmailAt(t, |pre| + at, |pre| + dot);
  }

  /** Examples (fixed inputs; TestEmail is the general statement): a plain address passes; no dot after the `@`, or a space inside the domain, fails. */
  lemma EmailExamples()
    ensures EmailMatches("a@b.c")
    ensures !EmailMatches("a@b")
    ensures !EmailMatches("a@ .c")
  {
    assert EmailAt("a@b.c", 1, 3);
    var s := "a@ .c";
    forall at: nat, dot: nat | at == 1 && 2 < dot < |s| ensures !EmailAt(s, at, dot) {
      assert s[at + 1..dot][0] == ' ';
    }
  }

  /** `if (params.email) setEmail(params.email)`. */
  function Prefill(paramEmail: Option<string>, current: string): (r: string)
    ensures Truthy(paramEmail) ==> r == paramEmail.value
    ensures !Truthy(paramEmail) ==> r == current
  {
    if Truthy(paramEmail) then paramEmail.value else current
  }

  // ---------------------------------------------------------------------------
  // admin/profile.tsx

  /** The run of whitespace at the front of `s` removed. */
  function DropSpace(s: string): (r: string)
    ensures |r| <= |s|
    ensures r == [] || !IsSpace(r[0])
  {
    if s == [] || !IsSpace(s[0]) then s else DropSpace(s[1..])
  }

  /** `s.replace(/\s+/g, '+')`: every maximal run of whitespace becomes one `+`. */
  function Collapse(s: string): (r: string)
    ensures NoSpace(r)
    ensures |r| <= |s|
    decreases |s|
  {
    if s == [] then []
    else if IsSpace(s[0]) then "+" + Collapse(DropSpace(s[1..]))
    else [s[0]] + Collapse(s[1..])
  }

  /** `name ? name.replace(/\s+/g, '+') : 'User'`. */
  function CleanName(name: Option<string>): (r: string)
    ensures NoSpace(r)
    ensures !Truthy(name) ==> r == "User"
  {
    if Truthy(name) then Collapse(name.value) else "User"
  }

  const AvatarPrefix := "https://ui-avatars.com/api/?name="
  const AvatarSuffix := "&background=random&color=fff&size=256"

  /**
   * `getAvatarUrl(name)`: the fixed prefix and suffix around a name without
   * whitespace; `User` for a missing name, the name itself when it has no whitespace.
   */
  function AvatarUrl(name: Option<string>): (u: string)
    ensures |AvatarPrefix| + |AvatarSuffix| <= |u|
    ensures u[..|AvatarPrefix|] == AvatarPrefix && u[|u| - |AvatarSuffix|..] == AvatarSuffix
    ensures NoSpace(u[|AvatarPrefix|..|u| - |AvatarSuffix|])
    ensures !Truthy(name) ==> u == AvatarPrefix + "User" + AvatarSuffix
    ensures Truthy(name) && NoSpace(name.value) ==> u == AvatarPrefix + name.value + AvatarSuffix
  {
    var c := CleanName(name);
    var u := AvatarPrefix + c + AvatarSuffix;
    assert u[|AvatarPrefix|..|u| - |AvatarSuffix|] == c;
    if Truthy(name) && NoSpace(name.value) then
      CollapseIdentity(name.value);
      u
    else
      u
  }

  /** A name without whitespace is used as it is. */
  lemma {:induction false} CollapseIdentity(s: string)
    requires NoSpace(s)
    ensures Collapse(s) == s
    decreases |s|
  {
    if s != [] {
      assert !IsSpace(s[0]);
      CollapseIdentity(s[1..]);
      assert s == [s[0]] + s[1..];
    }
  }

  lemma TailOfAppend(w: string, b: string)
    requires w != []
    ensures (w + b)[0] == w[0] && (w + b)[1..] == w[1..] + b
  {
  }

  /** Collapsing splits at a non-space character. */
  lemma {:induction false} CollapseAppend(a: string, b: string)
    requires a != [] && !IsSpace(a[|a| - 1])
    ensures Collapse(a + b) == Collapse(a) + Collapse(b)
    decreases |a|
  {
    TailOfAppend(a, b);
    if |a| == 1 {
      assert a[1..] == [];
      assert a + b == [a[0]] + b;
    } else {
      var t := a[1..];
      if IsSpace(a[0]) {
        DropSpaceAppend(t, b);
        DropSpaceSuffix(t);
        CollapseAppend(DropSpace(t), b);
      } else {
        CollapseAppend(t, b);
      }
    }
  }

  /** What remains after dropping leading space from a text ending in a non-space is a non-empty suffix. */
  lemma {:induction false} DropSpaceSuffix(a: string)
    requires a != [] && !IsSpace(a[|a| - 1])
    ensures DropSpace(a) != [] && DropSpace(a)[|DropSpace(a)| - 1] == a[|a| - 1]
    decreases |a|
  {
    if IsSpace(a[0]) {
      DropSpaceSuffix(a[1..]);
    }
  }

  /** Dropping leading space stops inside `a` when `a` ends in a non-space. */
  lemma {:induction false} DropSpaceAppend(a: string, b: string)
    requires a != [] && !IsSpace(a[|a| - 1])
    ensures DropSpace(a + b) == DropSpace(a) + b
    decreases |a|
  {
    TailOfAppend(a, b);
    if IsSpace(a[0]) {
      DropSpaceAppend(a[1..], b);
    }
  }

  /** A run of whitespace, however long, between two words becomes exactly one `+`. */
  lemma CollapseRun(a: string, w: string, b: string)
    requires a != [] && !IsSpace(a[|a| - 1])
    requires w != [] && AllSpace(w)
    requires b == [] || !IsSpace(b[0])
    ensures Collapse(a + w + b) == Collapse(a) + "+" + Collapse(b)
  {
    var t := w + b;
    assert a + w + b == a + t;
    CollapseAppend(a, t);
    TailOfAppend(w, b);
    DropSpaceRun(w[1..], b);
  }

  lemma {:induction false} DropSpaceRun(w: string, b: string)
    requires AllSpace(w)
    requires b == [] || !IsSpace(b[0])
    ensures DropSpace(w + b) == b
    decreases |w|
  {
    if w != [] {
      TailOfAppend(w, b);
      DropSpaceRun(w[1..], b);
    } else {
      assert w + b == b;
    }
  }

  /** Cleaning is idempotent: a cleaned name is already clean. */
  lemma CleanIdempotent(name: Option<string>)
    ensures CleanName(Some(CleanName(name))) == CleanName(name)
  {
    CollapseIdentity(CleanName(name));
  }
}
