/** The profile routes: experience and education lists (prepend on add,
    remove by `indexOf` and `splice`), the `skills` parse, the profile upsert
    with its social-links loop, and the cascade that deletes an account. */
module Profiles {
  import opened Js
  import opened Http
  import opened Models

  // ---------------------------------------------------------------------------
  // Experience and education: validation

  /** The body of `PUT /experience`; a missing field is "". */
  datatype ExperienceInput = ExperienceInput(
    title: string, company: string, location: string,
    from: string, to: string, current: bool, description: string)

  /** The body of `PUT /education`; a missing field is "". */
  datatype EducationInput = EducationInput(
    school: string, degree: string, fieldofstudy: string,
    from: string, to: string, current: bool, description: string)

  /** The messages of the failed `not().isEmpty()` checks of `PUT /experience`,
      in the order they are declared. */
  function ExperienceErrors(e: ExperienceInput): (errs: seq<string>)
    ensures errs == [] <==> e.title != "" && e.company != "" && e.from != ""
    ensures |errs| <= 3
    ensures e.title == "" ==> errs[0] == "Title is required"
  {
    (if e.title == "" then ["Title is required"] else []) +
    (if e.company == "" then ["Company is required"] else []) +
    (if e.from == "" then ["From date is required"] else [])
  }

  /** The messages of the failed checks of `PUT /education`, in order. */
  function EducationErrors(e: EducationInput): (errs: seq<string>)
    ensures errs == [] <==> e.school != "" && e.degree != "" && e.fieldofstudy != "" && e.from != ""
    ensures |errs| <= 4
    ensures e.school == "" ==> errs[0] == "School is required"
  {
    (if e.school == "" then ["School is required"] else []) +
    (if e.degree == "" then ["Degree is required"] else []) +
    (if e.fieldofstudy == "" then ["fieldofstudy is required"] else []) +
    (if e.from == "" then ["From is required"] else [])
  }

  /** `profile.experience.map(item => item.id)`. Like the selectors over posts,
      a named `Js.Map`, so that each callback has one definition. */
  function ExperienceIds(xs: seq<Experience>): seq<string> {
    Map(xs, (x: Experience) => x.id)
  }

  /** `profile.education.map(item => item.id)`. */
  function EducationIds(xs: seq<Education>): seq<string> {
    Map(xs, (x: Education) => x.id)
  }

  // ---------------------------------------------------------------------------
  // Remove by id: `xs.splice(xs.map(item => item.id).indexOf(id), 1)`

  /** The list `xs` after `splice(ids.indexOf(id), 1)`, where `ids` are the
      ids of `xs`. */
  function RemoveByIndexOf<T>(xs: seq<T>, ids: seq<string>, id: string): (r: seq<T>)
    ensures |ids| == |xs| && |xs| > 0 ==> |r| == |xs| - 1
  {
    SpliceOne(xs, Finite(ArrayIndexOf(ids, id)))
  }

  /** An id that is present removes the first entry carrying it and keeps the
      others in order; an absent id makes `indexOf` return -1, and the splice
      then removes the LAST entry (an empty list stays empty). */
  lemma RemoveByIndexOfEffect<T>(xs: seq<T>, ids: seq<string>, id: string)
    requires |ids| == |xs|
    ensures id in ids ==>
              var k := ArrayIndexOf(ids, id);
              0 <= k < |xs| && ids[k] == id && id !in ids[..k] &&
              RemoveByIndexOf(xs, ids, id) == xs[..k] + xs[k + 1..]
    ensures id !in ids ==>
              RemoveByIndexOf(xs, ids, id) == if |xs| == 0 then xs else xs[..|xs| - 1]
  {
    if id !in ids {
      SpliceOneAtMinusOne(xs);
    } else {
      SpliceOneAtIndex(xs, ArrayIndexOf(ids, id));
    }
  }

  /** As written, deleting an experience id that does not exist deletes the
      last entry of the list, the oldest one, since entries are prepended. */
  lemma DeleteAbsentExperienceDropsLast()
    ensures var a := Experience("a", "Dev", "Acme", "", "2019", "", false, "");
            var b := Experience("b", "Lead", "Initech", "", "2021", "", true, "");
            RemoveByIndexOf([b, a], ExperienceIds([b, a]), "missing") == [b]
  {
    var a := Experience("a", "Dev", "Acme", "", "2019", "", false, "");
    var b := Experience("b", "Lead", "Initech", "", "2021", "", true, "");
    RemoveByIndexOfEffect([b, a], ExperienceIds([b, a]), "missing");
  }

  /** The evidently intended removal: splice only when the id was found. */
  function RemoveIfPresent<T>(xs: seq<T>, ids: seq<string>, id: string): seq<T>
    requires |ids| == |xs|
  {
    var k := ArrayIndexOf(ids, id);
    if k == -1 then xs else SpliceOne(xs, Finite(k))
  }

  /** The intended removal leaves the list unchanged for an absent id and
      otherwise removes exactly the first entry with that id. */
  lemma RemoveIfPresentEffect<T>(xs: seq<T>, ids: seq<string>, id: string)
    requires |ids| == |xs|
    ensures id !in ids ==> RemoveIfPresent(xs, ids, id) == xs
    ensures id in ids ==>
              var k := ArrayIndexOf(ids, id);
              0 <= k < |xs| && ids[k] == id && id !in ids[..k] &&
              RemoveIfPresent(xs, ids, id) == xs[..k] + xs[k + 1..]
    ensures |RemoveIfPresent(xs, ids, id)| == if id in ids then |xs| - 1 else |xs|
  {
    if id in ids {
      SpliceOneAtIndex(xs, ArrayIndexOf(ids, id));
    }
  }

  // ---------------------------------------------------------------------------
  // Experience and education: the handlers

  /** `PUT /experience`: validate, then prepend the new entry to the caller's
      profile (`profile` is what `findOne` returned, null if there is none;
      `newId` is the id the store gives the new entry). */
  method AddExperience(profile: Profile?, e: ExperienceInput, newId: string) returns (r: Response<Profile>)
    modifies profile
    ensures ExperienceErrors(e) != [] ==>
              r == Invalid(ExperienceErrors(e)) && (profile != null ==> unchanged(profile))
    ensures ExperienceErrors(e) == [] && profile == null ==> r == Error(500, PlainText("Internal Error"))
    ensures ExperienceErrors(e) == [] && profile != null ==>
              && r.Ok? && r.value == profile
              && profile.experience ==
                 [Experience(newId, e.title, e.company, e.location, e.from, e.to, e.current, e.description)]
                 + old(profile.experience)
              && profile.education == old(profile.education)
              && profile.info == old(profile.info)
  {
    var errs := ExperienceErrors(e);
    if errs != [] {
      return Invalid(errs);
    }
    var newExp := Experience(newId, e.title, e.company, e.location, e.from, e.to, e.current, e.description);
    if profile == null {
      // profile.experience on null: a TypeError, caught
      return Error(500, PlainText("Internal Error"));
    }
    profile.experience := [newExp] + profile.experience;
    r := Ok(profile);
  }

  /** `DELETE /experience/:exp_id`, as written: the entry at
      `indexOf(exp_id)` is spliced out, which for an absent id is the last. */
  method DeleteExperience(profile: Profile?, id: string) returns (r: Response<Profile>)
    modifies profile
    ensures profile == null ==> r == Error(500, MsgBody("Internal Server Error"))
    ensures profile != null ==>
              && r.Ok? && r.value == profile
              && profile.education == old(profile.education)
              && profile.info == old(profile.info)
    ensures profile != null && id in ExperienceIds(old(profile.experience)) ==>
              var k := ArrayIndexOf(ExperienceIds(old(profile.experience)), id);
              && 0 <= k < |old(profile.experience)|
              && old(profile.experience)[k].id == id
              && id !in ExperienceIds(old(profile.experience))[..k]
              && profile.experience == old(profile.experience)[..k] + old(profile.experience)[k + 1..]
    ensures profile != null && id !in ExperienceIds(old(profile.experience)) ==>
              profile.experience ==
                if old(profile.experience) == [] then []
                else old(profile.experience)[..|old(profile.experience)| - 1]
  {
    if profile == null {
      return Error(500, MsgBody("Internal Server Error"));
    }
    var ids := ExperienceIds(profile.experience);
    RemoveByIndexOfEffect(profile.experience, ids, id);
    var removeIndex := ArrayIndexOf(ids, id);
    profile.experience := SpliceOne(profile.experience, Finite(removeIndex));
    r := Ok(profile);
  }

  /** `PUT /education`: validate, then prepend the new entry. */
  method AddEducation(profile: Profile?, e: EducationInput, newId: string) returns (r: Response<Profile>)
    modifies profile
    ensures EducationErrors(e) != [] ==>
              r == Invalid(EducationErrors(e)) && (profile != null ==> unchanged(profile))
    ensures EducationErrors(e) == [] && profile == null ==> r == Error(500, PlainText("Internal Error"))
    ensures EducationErrors(e) == [] && profile != null ==>
              && r.Ok? && r.value == profile
              && profile.education ==
                 [Education(newId, e.school, e.degree, e.fieldofstudy, e.from, e.to, e.current, e.description)]
                 + old(profile.education)
              && profile.experience == old(profile.experience)
              && profile.info == old(profile.info)
  {
    var errs := EducationErrors(e);
    if errs != [] {
      return Invalid(errs);
    }
    var newEdu := Education(newId, e.school, e.degree, e.fieldofstudy, e.from, e.to, e.current, e.description);
    if profile == null {
      return Error(500, PlainText("Internal Error"));
    }
    profile.education := [newEdu] + profile.education;
    r := Ok(profile);
  }

  /** `DELETE /education/:edu_id`, as written, with the same -1 behaviour. */
  method DeleteEducation(profile: Profile?, id: string) returns (r: Response<Profile>)
    modifies profile
    ensures profile == null ==> r == Error(500, MsgBody("Internal Server Error"))
    ensures profile != null ==>
              && r.Ok? && r.value == profile
              && profile.experience == old(profile.experience)
              && profile.info == old(profile.info)
    ensures profile != null && id in EducationIds(old(profile.education)) ==>
              var k := ArrayIndexOf(EducationIds(old(profile.education)), id);
              && 0 <= k < |old(profile.education)|
              && old(profile.education)[k].id == id
              && id !in EducationIds(old(profile.education))[..k]
              && profile.education == old(profile.education)[..k] + old(profile.education)[k + 1..]
    ensures profile != null && id !in EducationIds(old(profile.education)) ==>
              profile.education ==
                if old(profile.education) == [] then []
                else old(profile.education)[..|old(profile.education)| - 1]
  {
    if profile == null {
      return Error(500, MsgBody("Internal Server Error"));
    }
    var ids := EducationIds(profile.education);
    RemoveByIndexOfEffect(profile.education, ids, id);
    var removeIndex := ArrayIndexOf(ids, id);
    profile.education := SpliceOne(profile.education, Finite(removeIndex));
    r := Ok(profile);
  }

  // ---------------------------------------------------------------------------
  // Skills

  /** The `skills` field of the request body: already an array, or a
      comma-separated string. */
  datatype SkillsInput = SkillList(items: seq<string>) | SkillText(text: string)

  /** One entry of the parsed list: a space, then the trimmed piece. */
  function Skill(piece: string): (r: string)
    requires ',' !in piece
    ensures |r| >= 1 && r[0] == ' ' && ',' !in r
    ensures |r| == 1 || (!IsJsWhiteSpace(r[1]) && !IsJsWhiteSpace(r[|r| - 1]))
  {
    TrimAddsNothing(piece, ',');
    " " + Trim(piece)
  }

  /** `Array.isArray(skills) ? skills : skills.split(',').map(s => ' ' + s.trim())`.
      A list is kept as it is; a string gives one entry per comma-separated
      piece, each a space followed by a piece without commas and without
      surrounding white space. */
  function ParseSkills(skills: SkillsInput): (r: seq<string>)
    ensures skills.SkillList? ==> r == skills.items
    ensures skills.SkillText? ==> |r| == Count(skills.text, ',') + 1
    ensures skills.SkillText? ==> forall i :: 0 <= i < |r| ==>
              |r[i]| >= 1 && r[i][0] == ' ' && ',' !in r[i] &&
              (|r[i]| == 1 || (!IsJsWhiteSpace(r[i][1]) && !IsJsWhiteSpace(r[i][|r[i]| - 1])))
  {
    match skills
    case SkillList(items) => items
    case SkillText(text) =>
      var pieces := Split(text, ',');
      seq(|pieces|, i requires 0 <= i < |pieces| => Skill(pieces[i]))
  }

  /** Each parsed entry is the space-prefixed trim of the matching piece of
      the string, and the pieces join back to the string. */
  lemma ParseSkillsPieces(text: string)
    ensures var r := ParseSkills(SkillText(text));
            var pieces := Split(text, ',');
            |r| == |pieces| && Join(pieces, ',') == text &&
            forall i :: 0 <= i < |r| ==> r[i] == " " + Trim(pieces[i])
  {
    var r := ParseSkills(SkillText(text));
    var pieces := Split(text, ',');
    assert |r| == |pieces|;
    forall i | 0 <= i < |r| ensures r[i] == " " + Trim(pieces[i]) {
      assert r[i] == Skill(pieces[i]);
    }
  }

  /** The string a client builds by joining comma-free, already trimmed
      skills with commas parses back to those skills, each with a leading
      space. */
  lemma {:induction false} ParseSkillsOfJoin(skills: seq<string>)
    requires |skills| > 0
    requires forall i :: 0 <= i < |skills| ==> ',' !in skills[i] && Trim(skills[i]) == skills[i]
    ensures var r := ParseSkills(SkillText(Join(skills, ',')));
            |r| == |skills| && forall i :: 0 <= i < |r| ==> r[i] == " " + skills[i]
  {
    var text := Join(skills, ',');
    SplitJoin(skills, ',');
    var r := ParseSkills(SkillText(text));
    assert |r| == |skills|;
    forall i | 0 <= i < |r| ensures r[i] == " " + skills[i] {
      assert r[i] == Skill(skills[i]);
    }
  }

  // ---------------------------------------------------------------------------
  // Profile upsert

  /** The body of `POST /profile`. A missing text field is ""; the website
      and the five social links are optional because their absence makes a
      difference. */
  datatype ProfileRequest = ProfileRequest(
    company: string, website: Option<string>, location: string, bio: string,
    status: string, githubusername: string, skills: SkillsInput,
    youtube: Option<string>, twitter: Option<string>, instagram: Option<string>,
    linkedin: Option<string>, facebook: Option<string>)

  /** `not().isEmpty()` on `skills`. The validator runs on each item of an
      array, so an array passes when none of its items is empty (an empty
      array has no item to fail); a string passes when it is non-empty. */
  predicate SkillsGiven(s: SkillsInput) {
    match s
    case SkillList(items) => forall i :: 0 <= i < |items| ==> items[i] != ""
    case SkillText(text) => text != ""
  }

  /** The messages of the failed checks of `POST /profile`, in order. */
  function ProfileErrors(req: ProfileRequest): (errs: seq<string>)
    ensures errs == [] <==> req.status != "" && SkillsGiven(req.skills)
    ensures req.status == "" ==> errs[0] == "Status is required"
    ensures req.status != "" && !SkillsGiven(req.skills) ==> errs == ["Skills is required"]
  {
    (if req.status == "" then ["Status is required"] else []) +
    (if !SkillsGiven(req.skills) then ["Skills is required"] else [])
  }

  /** The social links in the order of the `socialfields` object. */
  function SocialLinks(req: ProfileRequest): (r: seq<Option<string>>)
    ensures |r| == 5
  {
    [req.youtube, req.twitter, req.instagram, req.linkedin, req.facebook]
  }

  /** The request reaches the store only when the website is "" and every
      social link is present and "": any other value reaches `normalize`,
      which the module never imports, or `undefined.length`, and either throws
      before the `try`. */
  predicate ReachesStore(req: ProfileRequest) {
    req.website == Some("") && forall i :: 0 <= i < 5 ==> SocialLinks(req)[i] == Some("")
  }

  /** The fields written by `$set` for a request that reaches the store. */
  function ProfileFields(req: ProfileRequest): ProfileInfo
  {
    ProfileInfo(req.company, req.location, "", req.bio, ParseSkills(req.skills),
                req.status, req.githubusername, Social("", "", "", "", ""))
  }

  /** `POST /profile`: `findOneAndUpdate({ user }, { $set }, { upsert: true })`.
      The caller's profile gets the new fields; a caller without one gets a
      new profile. Either way the store keeps at most one profile per user,
      and no other profile changes. */
  method UpsertProfile(db: Database, caller: UserId, req: ProfileRequest) returns (r: Response<Profile>)
    requires db.Valid()
    modifies db, db.profiles
    ensures db.Valid()
    ensures db.users == old(db.users) && db.posts == old(db.posts)
    ensures forall i :: 0 <= i < |old(db.profiles)| && old(db.profiles)[i].user != caller ==>
              unchanged(old(db.profiles)[i])
    ensures ProfileErrors(req) != [] ==> r == Invalid(ProfileErrors(req)) && db.profiles == old(db.profiles)
    ensures ProfileErrors(req) == [] && !ReachesStore(req) ==> r == Unanswered && db.profiles == old(db.profiles)
    ensures !(ProfileErrors(req) == [] && ReachesStore(req)) ==>
              forall i :: 0 <= i < |old(db.profiles)| ==> unchanged(old(db.profiles)[i])
    ensures ProfileErrors(req) == [] && ReachesStore(req) ==>
              && r.Ok?
              && FindProfileOf(db.profiles, caller) == Some(r.value)
              && r.value.info == ProfileFields(req)
    ensures ProfileErrors(req) == [] && ReachesStore(req) && FindProfileOf(old(db.profiles), caller).Some? ==>
              var p := FindProfileOf(old(db.profiles), caller).value;
              && db.profiles == old(db.profiles)
              && r == Ok(p)
              && p.experience == old(p.experience) && p.education == old(p.education)
    ensures ProfileErrors(req) == [] && ReachesStore(req) && FindProfileOf(old(db.profiles), caller).None? ==>
              && r.Ok? && fresh(r.value)
              && db.profiles == old(db.profiles) + [r.value]
              && r.value.user == caller && r.value.experience == [] && r.value.education == []
  {
    var errs := ProfileErrors(req);
    if errs != [] {
      return Invalid(errs);
    }
    if req.website != Some("") {
      // normalize(website): a ReferenceError, thrown before the try
      return Unanswered;
    }
    var fields := ProfileFields(req);
    var socialfields := SocialLinks(req);
    var i := 0;
    while i < |socialfields|
      invariant 0 <= i <= |socialfields|
      invariant forall j :: 0 <= j < i ==> socialfields[j] == Some("")
    {
      var value := socialfields[i];
      if value.None? || |value.value| > 0 {
        // undefined.length or normalize(value): thrown before the try
        return Unanswered;
      }
      i := i + 1;
    }
    var existing := FindProfileOf(db.profiles, caller);
    if existing.Some? {
      existing.value.info := fields;
      r := Ok(existing.value);
    } else {
      var p := new Profile(caller, fields);
      var before := db.profiles;
      AppendKeepsDistinct(before, p, OwnerOf);
      db.profiles := before + [p];
      r := Ok(p);
      assert db.profiles[|before|].user == caller;
    }
  }

  // ---------------------------------------------------------------------------
  // Account deletion

  /** `Post.deleteMany({ user })`. It filters by owner, where
      `Posts.RemovePost` filters by post id. */
  function PostsNotBy(posts: seq<Post>, user: UserId): (r: seq<Post>)
    ensures forall i :: 0 <= i < |r| ==> r[i] in posts && r[i].user != user
    ensures forall i :: 0 <= i < |posts| && posts[i].user != user ==> posts[i] in r
  {
    Filter(posts, (p: Post) => p.user != user)
  }

  /** `Profile.findOneAndRemove({ user })`. */
  function WithoutProfileOf(profiles: seq<Profile>, user: UserId): (r: seq<Profile>)
    ensures forall i :: 0 <= i < |r| ==> r[i] in profiles
  {
    RemoveFirst(profiles, (p: Profile) => p.user == user)
  }

  /** With at most one profile per user, removing the user's profile leaves
      none, keeps every other profile and keeps one profile per user. */
  lemma WithoutProfileOfRemovesIt(profiles: seq<Profile>, user: UserId)
    requires DistinctBy(profiles, OwnerOf)
    ensures FindProfileOf(WithoutProfileOf(profiles, user), user).None?
    ensures forall i :: 0 <= i < |profiles| && profiles[i].user != user ==>
              profiles[i] in WithoutProfileOf(profiles, user)
    ensures DistinctBy(WithoutProfileOf(profiles, user), OwnerOf)
  {
    var ownedBy := (p: Profile) => p.user == user;
    assert forall i, j :: 0 <= i < j < |profiles| && ownedBy(profiles[i]) ==> !ownedBy(profiles[j]);
    RemoveFirstOfUnique(profiles, ownedBy);
    RemoveFirstKeepsDistinct(profiles, ownedBy, OwnerOf);
  }

  /** `User.findOneAndRemove({ _id })`. */
  function WithoutUser(users: seq<User>, id: UserId): (r: seq<User>)
    ensures forall i :: 0 <= i < |r| ==> r[i] in users
  {
    RemoveFirst(users, (u: User) => u.id == id)
  }

  /** With distinct ids, removing the user with `id` leaves no such user,
      keeps every other user and keeps ids and emails distinct. */
  lemma WithoutUserRemovesIt(users: seq<User>, id: UserId)
    requires DistinctBy(users, IdOf) && DistinctBy(users, EmailOf)
    ensures FindUserById(WithoutUser(users, id), id).None?
    ensures forall i :: 0 <= i < |users| && users[i].id != id ==> users[i] in WithoutUser(users, id)
    ensures DistinctBy(WithoutUser(users, id), IdOf) && DistinctBy(WithoutUser(users, id), EmailOf)
  {
    var isCaller := (u: User) => u.id == id;
    assert forall i, j :: 0 <= i < j < |users| && isCaller(users[i]) ==> !isCaller(users[j]);
    RemoveFirstOfUnique(users, isCaller);
    RemoveFirstKeepsDistinct(users, isCaller, EmailOf);
    RemoveFirstKeepsDistinct(users, isCaller, IdOf);
  }

  /** `DELETE /profile`: the caller's posts, profile and user are removed;
      afterwards the store holds none of them and keeps everything else. */
  method DeleteAccount(db: Database, caller: UserId) returns (r: Response<Body>)
    requires db.Valid()
    modifies db
    ensures db.Valid()
    ensures r == Ok(MsgBody("User Deleted."))
    ensures forall i :: 0 <= i < |db.posts| ==> db.posts[i].user != caller
    ensures FindProfileOf(db.profiles, caller).None?
    ensures FindUserById(db.users, caller).None?
    ensures forall i :: 0 <= i < |old(db.posts)| && old(db.posts)[i].user != caller ==> old(db.posts)[i] in db.posts
    ensures forall i :: 0 <= i < |old(db.profiles)| && old(db.profiles)[i].user != caller ==>
              old(db.profiles)[i] in db.profiles
    ensures forall i :: 0 <= i < |old(db.users)| && old(db.users)[i].id != caller ==> old(db.users)[i] in db.users
    ensures forall i :: 0 <= i < |db.posts| ==> db.posts[i] in old(db.posts)
    ensures forall i :: 0 <= i < |db.profiles| ==> db.profiles[i] in old(db.profiles)
    ensures forall i :: 0 <= i < |db.users| ==> db.users[i] in old(db.users)
  {
    FilterKeepsDistinct(db.posts, (p: Post) => p.user != caller, PostIdOf);
    db.posts := PostsNotBy(db.posts, caller);
    WithoutProfileOfRemovesIt(db.profiles, caller);
    db.profiles := WithoutProfileOf(db.profiles, caller);
    WithoutUserRemovesIt(db.users, caller);
    db.users := WithoutUser(db.users, caller);
    r := Ok(MsgBody("User Deleted."));
  }
}
