/** The admin endpoints of the back end: statistics by template, role
    changes that keep an admin, user deletion with its resumes, and the two
    CSV exports with their field quoting. */
module AdminController {
  import opened Wrappers
  import opened Text
  import opened Model

  // ---------------------------------------------------------------------------
  // CSV fields (section 2 of RFC 4180).

  /** A field that has to be put in quotes. A lone carriage return does not
      count. */
  predicate NeedsQuotes(v: string) { ',' in v || '"' in v || '\n' in v }

  /** `escapeCsv`: null is the empty field; a value with a comma, a quote or a
      line feed is put in quotes with its quotes doubled; any other value is
      written as it is. */
  function EscapeCsv(value: Option<string>): (r: string)
    ensures value.None? ==> r == ""
  {
    match value
    case None => ""
    case Some(v) =>
      if Contains(v, ",") || Contains(v, "\"") || Contains(v, "\n") then "\"" + ReplaceAll(v, "\"", "\"\"") + "\""
      else v
  }

  lemma EscapeCsvCases(v: string)
    ensures !NeedsQuotes(v) ==> EscapeCsv(Some(v)) == v
    ensures NeedsQuotes(v) ==> EscapeCsv(Some(v)) == "\"" + ReplaceChar(v, '"', "\"\"") + "\""
  {
    ContainsChar(v, ',');
    ContainsChar(v, '"');
    ContainsChar(v, '\n');
    ReplaceAllChar(v, '"', "\"\"");
  }

  /** An unquoted field: everything up to the next comma or line feed. */
  function ParsePlain(s: string): (r: (string, string))
    ensures r.0 + r.1 == s
  {
    if s == [] || s[0] == ',' || s[0] == '\n' then ([], s)
    else
      var p := ParsePlain(s[1..]);
      ([s[0]] + p.0, p.1)
  }

  /** The rest of a quoted field after its opening quote: two quotes stand
      for one, a single quote closes the field. */
  function ParseQuotedBody(s: string): (r: Option<(string, string)>)
    ensures r.Some? ==> |r.value.1| < |s|
  {
    if s == [] then None
    else if s[0] == '"' then
      if |s| >= 2 && s[1] == '"' then
        match ParseQuotedBody(s[2..])
        case None => None
        case Some(p) => Some((['"'] + p.0, p.1))
      else Some(([], s[1..]))
    else
      match ParseQuotedBody(s[1..])
      case None => None
      case Some(p) => Some(([s[0]] + p.0, p.1))
  }

  /** One field and what follows it, or `None` for an unclosed quote. */
  function ParseField(s: string): (r: Option<(string, string)>)
    ensures r.Some? ==> |r.value.1| <= |s|
  {
    if s != [] && s[0] == '"' then ParseQuotedBody(s[1..]) else Some(ParsePlain(s))
  }

  /** Where a field may end: a comma, a line feed or the end of the text. */
  predicate AtFieldEnd(rest: string) { rest == [] || rest[0] == ',' || rest[0] == '\n' }

  lemma {:induction false} PlainRoundTrip(v: string, rest: string)
    requires !NeedsQuotes(v) && AtFieldEnd(rest)
    ensures ParsePlain(v + rest) == (v, rest)
  {
    if v == [] {
      assert v + rest == rest;
    } else {
      assert v[0] in v && (v + rest)[0] == v[0];
      assert !NeedsQuotes(v[1..]) by { assert forall c :: c in v[1..] ==> c in v; }
      PlainRoundTrip(v[1..], rest);
      assert (v + rest)[1..] == v[1..] + rest;
      assert [v[0]] + v[1..] == v;
    }
  }

  /** One more character in front of a value that reads back. */
  lemma QuotedStep(c: char, w: string, rest: string)
    requires ParseQuotedBody(ReplaceChar(w, '"', "\"\"") + "\"" + rest) == Some((w, rest))
    ensures ParseQuotedBody(ReplaceChar([c] + w, '"', "\"\"") + "\"" + rest) == Some(([c] + w, rest))
  {
    var tail := ReplaceChar(w, '"', "\"\"") + "\"" + rest;
    var s := ReplaceChar([c] + w, '"', "\"\"") + "\"" + rest;
    assert ([c] + w)[1..] == w;
    if c == '"' {
      assert s == "\"\"" + tail;
      assert s[2..] == tail;
    } else {
      assert s == [c] + tail;
      assert s[1..] == tail;
    }
  }

  lemma {:induction false} QuotedRoundTrip(v: string, rest: string)
    requires AtFieldEnd(rest)
    ensures ParseQuotedBody(ReplaceChar(v, '"', "\"\"") + "\"" + rest) == Some((v, rest))
  {
    if v == [] {
      var s := ReplaceChar(v, '"', "\"\"") + "\"" + rest;
      assert s == "\"" + rest;
      assert s[1..] == rest;
    } else {
      QuotedRoundTrip(v[1..], rest);
      QuotedStep(v[0], v[1..], rest);
      assert [v[0]] + v[1..] == v;
    }
  }

  /** Reading back an escaped field gives the value and stops exactly at the
      comma or line feed that follows it. */
  lemma EscapeCsvRoundTrip(v: string, rest: string)
    requires AtFieldEnd(rest)
    ensures ParseField(EscapeCsv(Some(v)) + rest) == Some((v, rest))
  {
    EscapeCsvCases(v);
    if NeedsQuotes(v) {
      var q := ReplaceChar(v, '"', "\"\"");
      assert EscapeCsv(Some(v)) + rest == "\"" + (q + "\"" + rest);
      QuotedRoundTrip(v, rest);
    } else {
      PlainRoundTrip(v, rest);
      if v != [] {
        assert (v + rest)[0] == v[0];
      }
    }
  }

  /** A carriage return alone is written as it is. */
  lemma CarriageReturnUnquoted()
    ensures EscapeCsv(Some("a\rb")) == "a\rb"
  {
    EscapeCsvCases("a\rb");
  }

  /** A record: fields separated by commas up to a line feed or the end. */
  function ParseRecord(s: string): (r: Option<(seq<string>, string)>)
    decreases |s|
  {
    match ParseField(s)
    case None => None
    case Some(p) =>
      if p.1 != [] && p.1[0] == ',' then
        match ParseRecord(p.1[1..])
        case None => None
        case Some(q) => Some(([p.0] + q.0, q.1))
      else if p.1 != [] && p.1[0] == '\n' then Some(([p.0], p.1[1..]))
      else Some(([p.0], p.1))
  }

  /** The escaped fields joined with commas. */
  function CsvFields(vs: seq<Option<string>>): string
    requires |vs| >= 1
  {
    if |vs| == 1 then EscapeCsv(vs[0]) else EscapeCsv(vs[0]) + "," + CsvFields(vs[1..])
  }

  function ValuesOf(vs: seq<Option<string>>): (r: seq<string>)
    ensures |r| == |vs|
    ensures forall i :: 0 <= i < |vs| ==> r[i] == vs[i].GetOr("")
  {
    if vs == [] then [] else [vs[0].GetOr("")] + ValuesOf(vs[1..])
  }

  /** Reading back a written line gives its values, a missing one as the
      empty field. */
  lemma {:induction false} CsvLineRoundTrip(vs: seq<Option<string>>, rest: string)
    requires |vs| >= 1
    ensures ParseRecord(CsvFields(vs) + "\n" + rest) == Some((ValuesOf(vs), rest))
  {
    var v := vs[0].GetOr("");
    assert EscapeCsv(vs[0]) == EscapeCsv(Some(v));
    if |vs| == 1 {
      EscapeCsvRoundTrip(v, "\n" + rest);
      assert CsvFields(vs) + "\n" + rest == EscapeCsv(Some(v)) + ("\n" + rest);
      assert ("\n" + rest)[1..] == rest;
      assert ValuesOf(vs) == [v];
    } else {
      var after := CsvFields(vs[1..]) + "\n" + rest;
      EscapeCsvRoundTrip(v, "," + after);
      assert CsvFields(vs) + "\n" + rest == EscapeCsv(Some(v)) + ("," + after);
      assert ("," + after)[1..] == after;
      CsvLineRoundTrip(vs[1..], rest);
      assert ValuesOf(vs) == [v] + ValuesOf(vs[1..]);
    }
  }

  // ---------------------------------------------------------------------------
  // Statistics by template (`getStatsExtended`).

  /** A missing or empty template counts as "default". */
  function TemplateKey(r: Resume): string {
    if r.template.Some? && r.template.value != "" then r.template.value else "default"
  }

  /** How many of the resumes fall under `key`. */
  function CountKey(rs: seq<Resume>, key: string): (n: nat)
    ensures n <= |rs|
  {
    if rs == [] then 0 else CountKey(rs[..|rs| - 1], key) + (if TemplateKey(rs[|rs| - 1]) == key then 1 else 0)
  }

  /** `groupingBy(template, counting())`. */
  function ResumesByTemplate(rs: seq<Resume>): (m: map<string, nat>)
    ensures forall k :: k in m ==> m[k] == CountKey(rs, k) && m[k] > 0
    ensures forall k :: k !in m ==> CountKey(rs, k) == 0
  {
    if rs == [] then map[]
    else
      var m := ResumesByTemplate(rs[..|rs| - 1]);
      var k := TemplateKey(rs[|rs| - 1]);
      m[k := (if k in m then m[k] else 0) + 1]
  }

  /** Some element of a non-empty set. */
  ghost function Pick(s: set<string>): string
    requires s != {}
  {
    var x :| x in s; x
  }

  /** The sum of the counts of a map. */
  ghost function Total(m: map<string, nat>): nat
    decreases |m.Keys|
  {
    if m.Keys == {} then 0
    else
      var k := Pick(m.Keys);
      assert (m - {k}).Keys == m.Keys - {k};
      m[k] + Total(m - {k})
  }

  /** The total does not depend on which key is taken out first. */
  lemma {:induction false} TotalRemove(m: map<string, nat>, k: string)
    requires k in m
    ensures Total(m) == m[k] + Total(m - {k})
    decreases |m.Keys|
  {
    var j := Pick(m.Keys);
    if j != k {
      assert (m - {j}).Keys == m.Keys - {j};
      assert (m - {k}).Keys == m.Keys - {k};
      TotalRemove(m - {j}, k);
      TotalRemove(m - {k}, j);
      assert m - {j} - {k} == m - {k} - {j};
    }
  }

  /** Counting one more under a key adds one to the total. */
  lemma TotalIncrement(m: map<string, nat>, k: string)
    ensures Total(m[k := (if k in m then m[k] else 0) + 1]) == Total(m) + 1
  {
    var m' := m[k := (if k in m then m[k] else 0) + 1];
    TotalRemove(m', k);
    if k in m {
      TotalRemove(m, k);
      assert m' - {k} == m - {k};
    } else {
      assert m' - {k} == m;
    }
  }

  /** The counts by template add up to the number of resumes. */
  lemma {:induction false} TemplateCountsTotal(rs: seq<Resume>)
    ensures Total(ResumesByTemplate(rs)) == |rs|
  {
    if rs != [] {
      TemplateCountsTotal(rs[..|rs| - 1]);
      TotalIncrement(ResumesByTemplate(rs[..|rs| - 1]), TemplateKey(rs[|rs| - 1]));
    }
  }

  // ---------------------------------------------------------------------------
  // Role changes (`updateUserRoles`).

  /** The ids of the users holding the admin role. */
  function Admins(users: map<string, User>): set<string> {
    set id | id in users && IsAdmin(users[id])
  }

  const RolesRequired := "At least one role is required."
  const LastAdmin := "Cannot remove the last admin."
  const RolesUpdated := "Roles updated successfully."

  /** `updateUserRoles`: missing or empty roles are refused, then an unknown
      user, then a change that would take the admin role from the last
      admin; otherwise the user's roles become exactly the requested ones and
      no other user changes. */
  method UpdateUserRoles(repo: UserRepository, id: string, roles: Option<set<string>>)
    returns (status: Status, message: string)
    requires repo.Valid()
    modifies repo
    ensures repo.Valid()
    ensures (roles.None? || roles.value == {}) ==>
              status == BadRequest && message == RolesRequired && repo.users == old(repo.users)
    ensures roles.Some? && roles.value != {} && id !in old(repo.users) ==>
              status == NotFound && repo.users == old(repo.users)
    ensures roles.Some? && roles.value != {} && id in old(repo.users)
            && IsAdmin(old(repo.users)[id]) && RoleAdmin !in roles.value && |Admins(old(repo.users))| <= 1 ==>
              status == BadRequest && message == LastAdmin && repo.users == old(repo.users)
    ensures roles.Some? && roles.value != {} && id in old(repo.users)
            && !(IsAdmin(old(repo.users)[id]) && RoleAdmin !in roles.value && |Admins(old(repo.users))| <= 1) ==>
              && status == Ok
              && repo.users == old(repo.users)[id := old(repo.users)[id].(roles := roles)]
    ensures status == Ok ==>
              && message == RolesUpdated
              && id in old(repo.users)
              && repo.users == old(repo.users)[id := old(repo.users)[id].(roles := roles)]
    ensures |Admins(old(repo.users))| >= 1 ==> |Admins(repo.users)| >= 1
  {
    if roles.None? || roles.value == {} {
      return BadRequest, RolesRequired;
    }
    if id !in repo.users {
      return NotFound, "";
    }
    var user := repo.users[id];
    var hadAdmin := user.roles.Some? && RoleAdmin in user.roles.value;
    var newRoles := roles.value;
    var hasAdmin := RoleAdmin in newRoles;
    if hadAdmin && !hasAdmin {
      var adminCount := |Admins(repo.users)|;
      if adminCount <= 1 {
        return BadRequest, LastAdmin;
      }
    }
    AdminsAfterRoleChange(repo.users, id, Some(newRoles));
    repo.Save(user.(roles := Some(newRoles)));
    return Ok, RolesUpdated;
  }

  /** Giving one user new roles changes the admin set only at that user. */
  lemma AdminsAfterRoleChange(users: map<string, User>, id: string, roles: Option<set<string>>)
    requires id in users
    ensures var after := users[id := users[id].(roles := roles)];
      && (IsAdmin(after[id]) ==> Admins(after) == Admins(users) + {id})
      && (!IsAdmin(after[id]) ==> Admins(after) == Admins(users) - {id})
      && (!IsAdmin(users[id]) && !IsAdmin(after[id]) ==> Admins(after) == Admins(users))
      && (|Admins(users)| >= 2 ==> |Admins(after)| >= 1)
  {
    var after := users[id := users[id].(roles := roles)];
    if !IsAdmin(after[id]) && |Admins(users)| >= 2 {
      assert |Admins(users) - {id}| >= |Admins(users)| - 1;
    }
  }

  // ---------------------------------------------------------------------------
  // Deleting a user (`deleteUser`).

  /** `deleteUser`: the caller's own id is refused, then an unknown id;
      otherwise the user goes, and every resume the user owns goes with it. */
  method DeleteUser(users: UserRepository, resumes: ResumeRepository, caller: Option<string>, id: string)
    returns (status: Status)
    modifies users, resumes
    ensures caller == Some(id) ==>
              status == Forbidden && users.users == old(users.users) && resumes.resumes == old(resumes.resumes)
    ensures caller != Some(id) && id !in old(users.users) ==>
              status == NotFound && users.users == old(users.users) && resumes.resumes == old(resumes.resumes)
    ensures caller != Some(id) && id in old(users.users) ==>
              && status == Ok
              && users.users == old(users.users) - {id}
              && (forall rid :: rid in resumes.resumes <==>
                    rid in old(resumes.resumes) && old(resumes.resumes)[rid].userId != id)
              && (forall rid :: rid in resumes.resumes ==> resumes.resumes[rid] == old(resumes.resumes)[rid])
  {
    if caller.Some? && caller.value == id {
      return Forbidden;
    }
    if id !in users.users {
      return NotFound;
    }
    resumes.DeleteByUserId(id);
    users.DeleteById(id);
    return Ok;
  }

  // ---------------------------------------------------------------------------
  // The users export (`exportUsersCsv`).

  const UsersHeader := "id,username,email,roles,resumeCount\n"

  /** How many of the resumes the user owns (0 when there are none, as
      `getOrDefault` gives). */
  function ResumeCount(resumes: seq<Resume>, userId: string): (n: nat)
    ensures n <= |resumes|
  {
    if resumes == [] then 0
    else ResumeCount(resumes[..|resumes| - 1], userId) + (if resumes[|resumes| - 1].userId == userId then 1 else 0)
  }

  /** `order` lists the user's roles once each, in the order the role set
      yields them; a missing set yields nothing. */
  ghost predicate ListsRoles(roles: Option<set<string>>, order: seq<string>) {
    match roles
    case None => order == []
    case Some(rs) =>
      && (forall i, j :: 0 <= i < j < |order| ==> order[i] != order[j])
      && (forall r :: r in order <==> r in rs)
  }

  /** The roles column: the roles joined with ";", empty for a missing set. */
  function RolesCell(u: User, roleOrder: seq<string>): string {
    if u.roles.Some? then Join(";", roleOrder) else ""
  }

  /** One line of the users export. The count is appended without escaping;
      `CountUnquoted` shows that escaping it would change nothing. */
  function UserLine(u: User, roleOrder: seq<string>, count: nat): string {
    CsvFields([Some(u.id), Some(u.username), Some(u.email), Some(RolesCell(u, roleOrder)), Some(NatToString(count))]) + "\n"
  }

  /** The header and the lines of the first `k` users. */
  function UsersCsv(users: seq<User>, roleOrders: seq<seq<string>>, resumes: seq<Resume>, k: nat): string
    requires k <= |users| == |roleOrders|
  {
    if k == 0 then UsersHeader
    else UsersCsv(users, roleOrders, resumes, k - 1)
           + UserLine(users[k - 1], roleOrders[k - 1], ResumeCount(resumes, users[k - 1].id))
  }

  /** A number is written as it is. */
  lemma CountUnquoted(n: nat)
    ensures EscapeCsv(Some(NatToString(n))) == NatToString(n)
  {
    var s := NatToString(n);
    assert forall i :: 0 <= i < |s| ==> IsDigit(s[i]);
    EscapeCsvCases(s);
  }

  /** Reading a user's line back gives its id, username, email, roles and
      resume count. */
  lemma UserLineFields(u: User, roleOrder: seq<string>, count: nat, rest: string)
    ensures ParseRecord(UserLine(u, roleOrder, count) + rest)
      == Some(([u.id, u.username, u.email, RolesCell(u, roleOrder), NatToString(count)], rest))
  {
    var vs := [Some(u.id), Some(u.username), Some(u.email), Some(RolesCell(u, roleOrder)), Some(NatToString(count))];
    CsvLineRoundTrip(vs, rest);
    assert ValuesOf(vs) == [u.id, u.username, u.email, RolesCell(u, roleOrder), NatToString(count)];
    assert UserLine(u, roleOrder, count) + rest == CsvFields(vs) + "\n" + rest;
  }

  /** `exportUsersCsv`: the header, then one line per user in store order. */
  method ExportUsersCsv(users: seq<User>, resumes: seq<Resume>, roleOrders: seq<seq<string>>) returns (csv: string)
    requires |roleOrders| == |users|
    requires forall i :: 0 <= i < |users| ==> ListsRoles(users[i].roles, roleOrders[i])
    ensures csv == UsersCsv(users, roleOrders, resumes, |users|)
  {
    csv := UsersHeader;
    for i := 0 to |users|
      invariant csv == UsersCsv(users, roleOrders, resumes, i)
    {
      var count := ResumeCount(resumes, users[i].id);
      csv := csv + UserLine(users[i], roleOrders[i], count);
    }
  }

  // ---------------------------------------------------------------------------
  // The resumes export (`exportResumesCsv`).

  const ResumesHeader := "id,name,userId,ownerUsername,template,updatedAt\n"

  /** Java's `Character.isWhitespace`. */
  predicate IsJavaWhitespace(c: char) {
    || c == ' ' || c == '\t' || c == '\n' || c == '\U{000B}' || c == '\U{000C}' || c == '\r'
    || '\U{001C}' <= c <= '\U{001F}' || c == '\U{1680}' || '\U{2000}' <= c <= '\U{2006}'
    || '\U{2008}' <= c <= '\U{200A}' || c == '\U{2028}' || c == '\U{2029}' || c == '\U{205F}' || c == '\U{3000}'
  }

  /** `isBlank`. */
  predicate IsBlank(s: string) { forall i :: 0 <= i < |s| ==> IsJavaWhitespace(s[i]) }

  /** The resumes of the user, in store order (`findByUserId`). */
  function ResumesOf(resumes: seq<Resume>, userId: string): (r: seq<Resume>)
    ensures forall i :: 0 <= i < |r| ==> r[i].userId == userId
    ensures |r| == ResumeCount(resumes, userId)
  {
    if resumes == [] then []
    else
      var last := resumes[|resumes| - 1];
      ResumesOf(resumes[..|resumes| - 1], userId) + (if last.userId == userId then [last] else [])
  }

  /** The resumes exported: a non-blank `userId` selects that user's. */
  function Exported(resumes: seq<Resume>, userId: Option<string>): seq<Resume> {
    if userId.Some? && !IsBlank(userId.value) then ResumesOf(resumes, userId.value) else resumes
  }

  /** The username of the first user with the id, or "—" (`toMap` keeps the
      first of equal keys). */
  function OwnerName(users: seq<User>, userId: string): (r: string)
    ensures (exists i :: 0 <= i < |users| && users[i].id == userId) ==>
      exists i :: 0 <= i < |users| && users[i].id == userId && r == users[i].username
                  && (forall j :: 0 <= j < i ==> users[j].id != userId)
    ensures (forall i :: 0 <= i < |users| ==> users[i].id != userId) ==> r == "—"
  {
    if users == [] then "—"
    else if users[0].id == userId then users[0].username
    else
      var r := OwnerName(users[1..], userId);
      assert forall i :: 1 <= i < |users| ==> users[i] == users[1..][i - 1];
      r
  }

  /** One line of the resumes export. */
  function ResumeLine(r: Resume, users: seq<User>): string {
    CsvFields([r.id, r.name, Some(r.userId), Some(OwnerName(users, r.userId)),
               Some(r.template.GetOr("default")), Some(r.updatedAt.GetOr(""))]) + "\n"
  }

  /** The header and the lines of the first `k` resumes. */
  function ResumesCsv(rs: seq<Resume>, users: seq<User>, k: nat): string
    requires k <= |rs|
  {
    if k == 0 then ResumesHeader else ResumesCsv(rs, users, k - 1) + ResumeLine(rs[k - 1], users)
  }

  /** Reading a resume's line back gives its id, name, owner id, owner name,
      template ("default" when missing) and update time ("" when missing). */
  lemma ResumeLineFields(r: Resume, users: seq<User>, rest: string)
    ensures ParseRecord(ResumeLine(r, users) + rest)
      == Some(([r.id.GetOr(""), r.name.GetOr(""), r.userId, OwnerName(users, r.userId),
                r.template.GetOr("default"), r.updatedAt.GetOr("")], rest))
  {
    var vs := [r.id, r.name, Some(r.userId), Some(OwnerName(users, r.userId)),
               Some(r.template.GetOr("default")), Some(r.updatedAt.GetOr(""))];
    CsvLineRoundTrip(vs, rest);
    assert ValuesOf(vs) == [r.id.GetOr(""), r.name.GetOr(""), r.userId, OwnerName(users, r.userId),
                            r.template.GetOr("default"), r.updatedAt.GetOr("")];
    assert ResumeLine(r, users) + rest == CsvFields(vs) + "\n" + rest;
  }

  /** `exportResumesCsv`: the header, then one line per exported resume. */
  method ExportResumesCsv(resumes: seq<Resume>, users: seq<User>, userId: Option<string>) returns (csv: string)
    ensures csv == ResumesCsv(Exported(resumes, userId), users, |Exported(resumes, userId)|)
  {
    var selected := Exported(resumes, userId);
    csv := ResumesHeader;
    for i := 0 to |selected|
      invariant csv == ResumesCsv(selected, users, i)
    {
      csv := csv + ResumeLine(selected[i], users);
    }
  }
}
