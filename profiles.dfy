/** How author and instructor names are derived from profile lookups: the
    anonymized display name with a fallback literal, and "first last" from
    the profiles table. */
module Profiles {
  import opened Common
  import opened Strings

  /** A row returned by the anonymized-profile procedure. */
  datatype AnonymizedProfile = AnonymizedProfile(displayName: Option<string>, avatarUrl: Option<string>)

  /** The outcome of one anonymized-profile call: an error, or its rows
      (null allowed). */
  datatype ProfileLookup = LookupFailed | LookupRows(rows: Option<seq<AnonymizedProfile>>)

  /** The first row's display name when the call succeeded and that name is
      a non-empty string (`data?.[0]?.display_name || fallback`), else the
      fallback. */
  function DisplayName(lookup: ProfileLookup, fallback: string): (name: string)
    ensures lookup.LookupFailed? ==> name == fallback
    ensures name == fallback ||
            (lookup.LookupRows? && lookup.rows.Some? && |lookup.rows.value| > 0 &&
             lookup.rows.value[0].displayName == Some(name) && name != "")
    ensures fallback != "" ==> name != ""
    ensures (lookup.LookupRows? && lookup.rows.Some? && |lookup.rows.value| > 0 &&
             Present(lookup.rows.value[0].displayName)) ==> name == lookup.rows.value[0].displayName.value
  {
    match lookup
    case LookupFailed => fallback
    case LookupRows(rows) =>
      if rows.Some? && |rows.value| > 0 && Present(rows.value[0].displayName)
      then rows.value[0].displayName.value
      else fallback
  }

  /** The name columns of a `profiles` row. */
  datatype NamedProfile = NamedProfile(id: string, firstName: string, lastName: string)

  const Anonymous := "Anonymous"

  /** `${first_name} ${last_name}`.trim() || 'Anonymous', and 'Anonymous'
      when there is no profile. */
  function AuthorName(profile: Option<NamedProfile>): (name: string)
    ensures name != ""
    ensures !IsWhitespace(name[0]) && !IsWhitespace(name[|name| - 1])
    ensures profile.None? ==> name == Anonymous
    ensures profile.Some? ==>
              var full := profile.value.firstName + " " + profile.value.lastName;
              name == (if IsBlank(full) then Anonymous else Trim(full))
  {
    if profile.None? then Anonymous
    else
      var full := Trim(profile.value.firstName + " " + profile.value.lastName);
      if full == "" then Anonymous else full
  }

  /** A profile whose two name fields are blank is shown as 'Anonymous';
      one with a non-blank first name shows that name, trimmed, first. */
  lemma AuthorNameOfBlankProfile(p: NamedProfile)
    requires IsBlank(p.firstName) && IsBlank(p.lastName)
    ensures AuthorName(Some(p)) == Anonymous
  {
    var full := p.firstName + " " + p.lastName;
    forall k | 0 <= k < |full|
      ensures IsWhitespace(full[k])
    {
      if k < |p.firstName| {
        assert full[k] == p.firstName[k];
      } else if k == |p.firstName| {
        assert full[k] == ' ';
      } else {
        assert full[k] == p.lastName[k - |p.firstName| - 1];
      }
    }
  }
}
