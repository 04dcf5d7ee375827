/** The profile store as the program reads it, and the selection list built
    from it at start-up. */
module Profiles {
  import opened Credentials

  /** The top-level table of the profile store, in document order: each
      profile's name with the string fields of its table. */
  type Catalog = seq<(string, ProfileFields)>

  /** The non-selectable first row of the list. */
  const Header := "Select a profile to use:"
  /** The row that clears the repository's identity. */
  const Global := "Global"
  /** The last row, which starts the profile-creation flow. */
  const CreateNew := "Create new"

  /** The profile names, in document order. */
  function Names(catalog: Catalog): (names: seq<string>)
    ensures |names| == |catalog|
    ensures forall k :: 0 <= k < |catalog| ==> names[k] == catalog[k].0
  {
    seq(|catalog|, k requires 0 <= k < |catalog| => catalog[k].0)
  }

  /** The profile values, in the same order as their names. */
  function Values(catalog: Catalog): (values: seq<ProfileFields>)
    ensures |values| == |catalog|
    ensures forall k :: 0 <= k < |catalog| ==> values[k] == catalog[k].1
  {
    seq(|catalog|, k requires 0 <= k < |catalog| => catalog[k].1)
  }

  /** The rows shown: the header, "Global", every profile name in order, and
      "Create new"; profile k sits at row k + 2. */
  function SelectionList(names: seq<string>): (list: seq<string>)
    ensures |list| == |names| + 3
    ensures list[0] == Header && list[1] == Global && list[|list| - 1] == CreateNew
    ensures forall k :: 0 <= k < |names| ==> list[k + 2] == names[k]
  {
    [Header, Global] + names + [CreateNew]
  }

  /** Building the list as `main` does: start from the names, insert
      "Global" and then the header at the front, push "Create new". */
  method BuildSelectionList(names: seq<string>) returns (list: seq<string>)
    ensures list == SelectionList(names)
  {
    list := names;
    list := [Global] + list;
    list := [Header] + list;
    list := list + [CreateNew];
  }
}
