/**
 The three status lookups used on each promise card (script.js lines
 70-95): the badge's colour classes, the progress bar's colour class and
 the status icon's markup. Each is a `switch` on the status string with a
 default branch, so every string has a value.
 */
module StatusStyle {

  /** The colour family a status is shown in; `Gray` is every status the page does not know. */
  datatype Hue = Green | Yellow | Red | Gray

  /** The classification the three lookups share: `switch` compares with `===`. */
  function StatusHue(status: string): (h: Hue)
    ensures h == Gray <==> status !in {"fulfilled", "in-progress", "delayed"}
  {
    if status == "fulfilled" then Green
    else if status == "in-progress" then Yellow
    else if status == "delayed" then Red
    else Gray
  }

  /** The word Tailwind uses for a hue in its class names. */
  function HueName(h: Hue): string
  {
    match h
    case Green => "green"
    case Yellow => "yellow"
    case Red => "red"
    case Gray => "gray"
  }

  /** `getStatusColor`: background, text and border classes of the status badge. */
  function StatusColor(status: string): string
  {
    if status == "fulfilled" then "bg-green-100 text-green-800 border-green-300"
    else if status == "in-progress" then "bg-yellow-100 text-yellow-800 border-yellow-300"
    else if status == "delayed" then "bg-red-100 text-red-800 border-red-300"
    else "bg-gray-100 text-gray-800 border-gray-300"
  }

  /** `getProgressBarColor`: the background class of the progress bar. */
  function ProgressBarColor(status: string): string
  {
    if status == "fulfilled" then "bg-green-500"
    else if status == "in-progress" then "bg-yellow-500"
    else if status == "delayed" then "bg-red-500"
    else "bg-gray-500"
  }

  /** `getStatusIcon`: the Lucide icon placeholder, or nothing. */
  function StatusIcon(status: string): string
  {
    if status == "fulfilled" then "<i data-lucide=\"check-circle\" class=\"w-5 h-5\"></i>"
    else if status == "in-progress" then "<i data-lucide=\"clock\" class=\"w-5 h-5\"></i>"
    else if status == "delayed" then "<i data-lucide=\"x-circle\" class=\"w-5 h-5\"></i>"
    else ""
  }

  /** The badge is gray exactly for the statuses the page does not know. */
  lemma StatusColorDefault(status: string)
    ensures StatusColor(status) == "bg-gray-100 text-gray-800 border-gray-300" <==> StatusHue(status) == Gray
  {
  }

  /** The progress bar is `bg-<hue>-500` for the status's hue, gray for unknown statuses. */
  lemma ProgressBarShade(status: string)
    ensures ProgressBarColor(status) == "bg-" + HueName(StatusHue(status)) + "-500"
  {
  }

  /** There is an icon exactly for the statuses the page knows. */
  lemma StatusIconDefault(status: string)
    ensures StatusIcon(status) == "" <==> StatusHue(status) == Gray
  {
  }

  /** Two statuses get the same badge exactly when they have the same hue. */
  lemma StatusColorSeparates(s1: string, s2: string)
    ensures StatusColor(s1) == StatusColor(s2) <==> StatusHue(s1) == StatusHue(s2)
  {
    BadgeLengths(s1);
    BadgeLengths(s2);
  }

  /** Two statuses get the same progress bar exactly when they have the same hue. */
  lemma ProgressBarColorSeparates(s1: string, s2: string)
    ensures ProgressBarColor(s1) == ProgressBarColor(s2) <==> StatusHue(s1) == StatusHue(s2)
  {
    ProgressBarShade(s1);
    ProgressBarShade(s2);
    HueNameLength(StatusHue(s1));
    HueNameLength(StatusHue(s2));
  }

  /** Two statuses get the same icon exactly when they have the same hue. */
  lemma StatusIconSeparates(s1: string, s2: string)
    ensures StatusIcon(s1) == StatusIcon(s2) <==> StatusHue(s1) == StatusHue(s2)
  {
    IconLengths(s1);
    IconLengths(s2);
  }

  /** Badge, bar and icon never disagree: any one of them determines the other two. */
  lemma LookupsAgree(s1: string, s2: string)
    ensures StatusColor(s1) == StatusColor(s2) <==> ProgressBarColor(s1) == ProgressBarColor(s2)
    ensures StatusColor(s1) == StatusColor(s2) <==> StatusIcon(s1) == StatusIcon(s2)
  {
    StatusColorSeparates(s1, s2);
    ProgressBarColorSeparates(s1, s2);
    StatusIconSeparates(s1, s2);
  }

  // The literals of each lookup have pairwise different lengths, which is
  // what tells them apart in the proofs above.

  lemma HueNameLength(h: Hue)
    ensures |HueName(h)| == match h case Green => 5 case Yellow => 6 case Red => 3 case Gray => 4
  {
  }

  lemma BadgeLengths(status: string)
    ensures |StatusColor(status)| == match StatusHue(status)
      case Green => 44 case Yellow => 47 case Red => 38 case Gray => 41
  {
  }

  lemma IconLengths(status: string)
    ensures |StatusIcon(status)| == match StatusHue(status)
      case Green => 50 case Yellow => 43 case Red => 46 case Gray => 0
  {
  }
}
