/** Status-to-badge and status-to-label lookups and the small string helpers
    of `lib/utils/ui-utils.ts`. Statuses arrive as strings, so the default
    branches for unknown strings are part of the model. */
module UiUtils {
  import opened Wrappers
  import opened Text
  import opened Types

  /** The badge variants. */
  datatype BadgeVariant = Default | Secondary | Outline | Destructive | Warning

  /** `getBadgeVariant`. */
  function GetBadgeVariant(status: string): (v: BadgeVariant)
    ensures v == Default <==> status == StatusText(Active)
    ensures v == Secondary <==> status == StatusText(Upcoming)
    ensures v == Destructive <==> status == StatusText(Overdue)
    ensures v == Warning <==> status == StatusText(DueSoon)
    ensures v == Outline <==> status == StatusText(Completed) || ParseStatus(status).None?
  {
    if status == "active" then Default
    else if status == "upcoming" then Secondary
    else if status == "completed" then Outline
    else if status == "overdue" then Destructive
    else if status == "due-soon" then Warning
    else Outline
  }

  /** The first character upper-cased, the rest unchanged. */
  function Capitalize(s: string): (r: string)
    ensures |r| == |s|
    ensures |s| > 0 ==> r[0] == UpperChar(s[0]) && r[1..] == s[1..]
  {
    if |s| == 0 then "" else [UpperChar(s[0])] + s[1..]
  }

  /** `getStatusLabel`. */
  function GetStatusLabel(status: string): (r: string)
    ensures ParseStatus(status).None? ==> |r| == |status|
    ensures ParseStatus(status).None? && |status| > 0 ==>
              r[0] == UpperChar(status[0]) && r[1..] == status[1..]
    ensures status == "" ==> r == ""
  {
    if status == "active" then "Active"
    else if status == "upcoming" then "Upcoming"
    else if status == "completed" then "Completed"
    else if status == "overdue" then "Overdue"
    else if status == "due-soon" then "Due Soon"
    else Capitalize(status)
  }

  /** The five status labels are each status's text capitalised, except
      that "due-soon" reads "Due Soon" rather than "Due-soon". */
  lemma StatusLabelsCapitalize(s: Status)
    ensures s != DueSoon ==> GetStatusLabel(StatusText(s)) == Capitalize(StatusText(s))
    ensures s == DueSoon ==> GetStatusLabel(StatusText(s)) == "Due Soon" != Capitalize(StatusText(s))
  {
    var text := StatusText(s);
    assert Capitalize(text) == [UpperChar(text[0])] + text[1..];
    match s
    case Active => assert UpperChar('a') == 'A';
    case Upcoming => assert UpperChar('u') == 'U';
    case Completed => assert UpperChar('c') == 'C';
    case Overdue => assert UpperChar('o') == 'O';
    case DueSoon => assert Capitalize(text)[3] == '-';
  }

  /** Different statuses get different labels. */
  lemma StatusLabelsDistinct(s: Status, t: Status)
    requires s != t
    ensures GetStatusLabel(StatusText(s)) != GetStatusLabel(StatusText(t))
  {
    var ls, lt := GetStatusLabel(StatusText(s)), GetStatusLabel(StatusText(t));
    assert ls[0] != lt[0];
  }

  /** `getPetTypeLabel`: the first "_" becomes a space, then all is lower-cased. */
  function GetPetTypeLabel(petType: string): (r: string)
    ensures |r| == |petType|
    ensures forall i :: 0 <= i < |petType| ==>
              r[i] == (if i == IndexOf(petType, '_') then ' ' else LowerChar(petType[i]))
  {
    Lower(ReplaceFirst(petType, '_', ' '))
  }

  /** For every pet type the label of its code is its display name in lower case. */
  lemma PetTypeLabelsMatchDisplayNames(t: PetType)
    ensures GetPetTypeLabel(PetTypeCode(t)) == Lower(PetTypeDisplay(t))
  {
    var code, display := PetTypeCode(t), PetTypeDisplay(t);
    if t == SmallMammal {
      SmallMammalLabel();
    } else {
      IndexOfIsFirst(code, '_', |code|);
      LabelIsLowered(code, display);
    }
  }

  /** The one code with an underscore. */
  lemma SmallMammalLabel()
    ensures GetPetTypeLabel("SMALL_MAMMAL") == Lower("Small Mammal")
  {
    IndexOfIsFirst("SMALL_MAMMAL", '_', 5);
    assert LowerChar('S') == LowerChar('s') == 's';
    assert LowerChar('M') == LowerChar('m') == 'm';
    assert LowerChar('A') == LowerChar('a') == 'a';
    assert LowerChar('L') == LowerChar('l') == 'l';
    LabelIsLowered("SMALL_MAMMAL", "Small Mammal");
  }

  /** The label of `code` is `display` lower-cased when they agree character
      by character, the first "_" of `code` standing for a space. */
  lemma LabelIsLowered(code: string, display: string)
    requires |code| == |display|
    requires forall i :: 0 <= i < |code| ==>
               LowerChar(display[i]) == if i == IndexOf(code, '_') then ' ' else LowerChar(code[i])
    ensures GetPetTypeLabel(code) == Lower(display)
  {
  }

  /** Only the first "_" is replaced: a code with two of them keeps the second. */
  lemma PetTypeLabelReplacesOnlyFirstUnderscore()
    ensures GetPetTypeLabel("A_B_C") == "a b_c"
  {
    var r := GetPetTypeLabel("A_B_C");
    IndexOfIsFirst("A_B_C", '_', 1);
    assert r == "a b_c";
  }

  /** `getAvatarFallback`: the first two characters, upper-cased. */
  function GetAvatarFallback(name: string): (r: string)
    ensures |r| == if |name| < 2 then |name| else 2
    ensures forall i :: 0 <= i < |r| ==> r[i] == UpperChar(name[i])
  {
    Upper(if |name| < 2 then name else name[..2])
  }

  /** A fallback is its own fallback: it is already short and upper-case. */
  lemma AvatarFallbackIsFixedPoint(name: string)
    ensures GetAvatarFallback(GetAvatarFallback(name)) == GetAvatarFallback(name)
  {
  }
}
