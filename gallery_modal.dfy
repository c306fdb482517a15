/**
 * The showcase gallery: four sample images in a grid; a click opens a dialog
 * on that image, whose arrows step through the four cyclically.
 */
module GalleryModal {

  datatype ShowcaseImage = ShowcaseImage(id: nat, title: string, prompt: string, model: string)

  const Showcase: seq<ShowcaseImage> := [
    ShowcaseImage(1, "Futuristic Cityscape", "A futuristic cityscape at sunset with flying cars", "Stable Diffusion"),
    ShowcaseImage(2, "Digital Portrait", "Portrait of a cyberpunk character with neon lights", "DALL-E 2"),
    ShowcaseImage(3, "Fantasy Landscape", "Magical forest with glowing mushrooms and fairy lights", "Midjourney Style"),
    ShowcaseImage(4, "Abstract Art", "Colorful abstract geometric patterns", "Stable Diffusion")
  ]

  /** JavaScript's `a % n`: the remainder takes the sign of `a`. */
  function JsRem(a: int, n: int): (r: int)
    requires n > 0
    ensures a >= 0 ==> 0 <= r < n && r == a % n
    ensures a < 0 ==> -n < r <= 0
  {
    if a >= 0 then a % n else -((-a) % n)
  }

  /** `(prev + 1) % length`. */
  function NextIndex(i: int, n: int): (j: int)
    requires n > 0
  {
    JsRem(i + 1, n)
  }

  /** `(prev - 1 + length) % length`. */
  function PrevIndex(i: int, n: int): (j: int)
    requires n > 0
  {
    JsRem(i - 1 + n, n)
  }

  /** From a valid index both steps land on a valid index, one place along the cycle. */
  lemma StepsStayInRange(i: int, n: int)
    requires 0 <= i < n
    ensures 0 <= NextIndex(i, n) < n && 0 <= PrevIndex(i, n) < n
    ensures NextIndex(i, n) == if i == n - 1 then 0 else i + 1
    ensures PrevIndex(i, n) == if i == 0 then n - 1 else i - 1
  {
  }

  /** Back after forward, and forward after back, return to the same image. */
  lemma PrevUndoesNext(i: int, n: int)
    requires 0 <= i < n
    ensures PrevIndex(NextIndex(i, n), n) == i
    ensures NextIndex(PrevIndex(i, n), n) == i
  {
    StepsStayInRange(i, n);
    StepsStayInRange(NextIndex(i, n), n);
    StepsStayInRange(PrevIndex(i, n), n);
  }

  /** `k` presses of the forward arrow. */
  function NextTimes(i: int, n: int, k: nat): int
    requires n > 0
  {
    if k == 0 then i else NextIndex(NextTimes(i, n, k - 1), n)
  }

  /** `k` forward presses from a valid index move `k` places around the cycle. */
  lemma {:induction false} NextTimesAdvances(i: int, n: int, k: nat)
    requires 0 <= i < n
    ensures NextTimes(i, n, k) == (i + k) % n
  {
    if k > 0 {
      NextTimesAdvances(i, n, k - 1);
      var j := NextTimes(i, n, k - 1);
      assert 0 <= j < n;
      assert (j + 1) % n == (i + k) % n by {
        assert j == (i + k - 1) % n;
        ModStep(i + k - 1, n);
      }
    }
  }

  lemma MulGrows(d: int, n: int)
    requires n > 0
    ensures d >= 1 ==> d * n >= n
    ensures d <= -1 ==> d * n <= -n
  {
    if d >= 1 {
      assert d * n == (d - 1) * n + n;
    } else if d <= -1 {
      assert d * n == (d + 1) * n - n;
    }
  }

  /** A remainder is determined by any quotient-remainder split of the dividend. */
  lemma ModUnique(a: int, n: int, q: int, r: int)
    requires n > 0 && 0 <= r < n && a == q * n + r
    ensures a % n == r
  {
    var d := q - a / n;
    assert a == (a / n) * n + a % n;
    assert d * n == a % n - r;
    MulGrows(d, n);
  }

  lemma ModStep(a: int, n: int)
    requires a >= 0 && n > 0
    ensures (a % n + 1) % n == (a + 1) % n
  {
    var q := a / n;
    assert a == q * n + a % n;
    if a % n == n - 1 {
      ModUnique(a + 1, n, q + 1, 0);
      ModUnique(a % n + 1, n, 1, 0);
    } else {
      ModUnique(a + 1, n, q, a % n + 1);
      ModUnique(a % n + 1, n, 0, a % n + 1);
    }
  }

  /** A full round of forward presses shows the starting image again. */
  lemma FullRoundIsIdentity(i: int, n: int)
    requires 0 <= i < n
    ensures NextTimes(i, n, n) == i
  {
    NextTimesAdvances(i, n, n);
    ModUnique(i + n, n, 1, i);
  }

  class ShowcaseDialog {
    /** The `selectedImage` index. */
    var selected: int
    /** The `isOpen` flag the four dialogs share. */
    var isOpen: bool

    predicate Valid()
      reads this
    {
      0 <= selected < |Showcase|
    }

    constructor ()
      ensures selected == 0 && !isOpen && Valid()
    {
      selected := 0;
      isOpen := false;
    }

    /** The image the open dialog shows. */
    function Shown(): ShowcaseImage
      reads this
      requires Valid()
    {
      Showcase[selected]
    }

    /** A card click: that image, and the dialog open. */
    method OpenCard(k: nat)
      requires k < |Showcase|
      modifies this
      ensures selected == k && isOpen && Valid()
      ensures Shown() == Showcase[k]
    {
      selected := k;
      isOpen := true;
    }

    /** `nextImage`. */
    method NextImage()
      requires Valid()
      modifies this`selected
      ensures selected == NextIndex(old(selected), |Showcase|) && Valid()
      ensures selected == if old(selected) == |Showcase| - 1 then 0 else old(selected) + 1
    {
      StepsStayInRange(selected, |Showcase|);
      selected := NextIndex(selected, |Showcase|);
    }

    /** `prevImage`. */
    method PrevImage()
      requires Valid()
      modifies this`selected
      ensures selected == PrevIndex(old(selected), |Showcase|) && Valid()
      ensures selected == if old(selected) == 0 then |Showcase| - 1 else old(selected) - 1
    {
      StepsStayInRange(selected, |Showcase|);
      selected := PrevIndex(selected, |Showcase|);
    }

    /** `onOpenChange`: the dialog's own close (or open) request. */
    method SetOpen(open: bool)
      modifies this`isOpen
      ensures isOpen == open
    {
      isOpen := open;
    }
  }
}
