/**
 * The release list of a repository: each row shows the release's name, its
 * kind (draft, pre-release or final, in that order of priority) and when it
 * was created.
 *
 * Models src/com/gh4a/adapter/ReleaseAdapter.java.
 */
module Releases {

  /** The parts of a release the adapter reads besides its creation time. */
  datatype Release = Release(name: string, isDraft: bool, isPreRelease: bool)

  /** The localized strings release_type_draft, release_type_prerelease and
      release_type_final. */
  datatype ReleaseStrings = ReleaseStrings(draft: string, preRelease: string, final: string)
  {
    predicate Distinct()
    {
      draft != preRelease && draft != final && preRelease != final
    }
  }

  /** The label of a release's kind: draft wins over pre-release, and a release
      that is neither is final. */
  function FormatReleaseType(strings: ReleaseStrings, release: Release): (text: string)
    ensures text in {strings.draft, strings.preRelease, strings.final}
    ensures release.isDraft ==> text == strings.draft
    ensures !release.isDraft && release.isPreRelease ==> text == strings.preRelease
    ensures !release.isDraft && !release.isPreRelease ==> text == strings.final
  {
    if release.isDraft then strings.draft
    else if release.isPreRelease then strings.preRelease
    else strings.final
  }

  /** With three distinct strings the label tells the kind back, in both
      directions: exactly one of the three labels is shown. */
  lemma LabelDeterminesKind(strings: ReleaseStrings, release: Release)
    requires strings.Distinct()
    ensures FormatReleaseType(strings, release) == strings.draft <==> release.isDraft
    ensures FormatReleaseType(strings, release) == strings.preRelease <==> !release.isDraft && release.isPreRelease
    ensures FormatReleaseType(strings, release) == strings.final <==> !release.isDraft && !release.isPreRelease
  {
  }

  /** A draft that is also marked pre-release is labelled a draft, never a
      pre-release. */
  lemma DraftWinsOverPreRelease(strings: ReleaseStrings, name: string)
    requires strings.Distinct()
    ensures FormatReleaseType(strings, Release(name, true, true)) == strings.draft
    ensures FormatReleaseType(strings, Release(name, true, true)) != strings.preRelease
  {
  }

  /** One row's three text fields. */
  class ViewHolder {
    var title: string
    var releaseType: string
    var createdAt: string

    constructor ()
      ensures title == "" && releaseType == "" && createdAt == ""
    {
      title, releaseType, createdAt := "", "", "";
    }
  }

  class ReleaseAdapter {
    const strings: ReleaseStrings

    constructor (strings: ReleaseStrings)
      ensures this.strings == strings
    {
      this.strings := strings;
    }

    /** Writes the name, the kind label and the creation text into the row.
        `createdAtText` is the download_created string around the release's
        relative creation time. */
    method OnBindViewHolder(holder: ViewHolder, release: Release, createdAtText: string)
      modifies holder
      ensures holder.title == release.name
      ensures holder.releaseType == FormatReleaseType(strings, release)
      ensures holder.createdAt == createdAtText
    {
      holder.title := release.name;
      holder.releaseType := FormatReleaseType(strings, release);
      holder.createdAt := createdAtText;
    }
  }
}
