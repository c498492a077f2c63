// The IDX files of the MNIST data set, as the loader reads them.
// An image file is the word 2051, the image count, the row count and the column count (four
// big-endian 32-bit words), then one byte per pixel, image after image, row after row.
// A label file is the word 2049, the label count, then one byte per label.
// The file system is a parameter: None stands for a file that cannot be opened, Some(bytes)
// for the contents of one that can.

module MnistLoader {
  import opened LinAlg

  type Byte = x: int | 0 <= x < 256

  datatype Option<T> = None | Some(value: T)

  /** The std::runtime_error the loader throws, with its message. */
  datatype LoadError = RuntimeError(message: string)

  datatype Result<T> = Ok(value: T) | Err(error: LoadError)

  const WordBase: nat := 0x1_0000_0000
  const ImageMagic: nat := 2051
  const LabelMagic: nat := 2049
  /** Bytes before the first pixel: magic, count, rows, cols. */
  const ImageHeaderSize: nat := 16
  /** Bytes before the first label: magic, count. */
  const LabelHeaderSize: nat := 8
  /** Length of a one-hot label vector: the ten digits. */
  const LabelClasses: nat := 10

  // ---------------------------------------------------------------------------
  // Big-endian words.

  /** The value of four bytes read most significant first. */
  function WordOf(b0: Byte, b1: Byte, b2: Byte, b3: Byte): (w: nat)
    ensures w < WordBase
  {
    b0 * 0x100_0000 + b1 * 0x1_0000 + b2 * 0x100 + b3
  }

  /** The word stored at offset k. */
  function WordAt(bytes: seq<Byte>, k: nat): (w: nat)
    requires k + 4 <= |bytes|
    ensures w < WordBase
  {
    WordOf(bytes[k], bytes[k + 1], bytes[k + 2], bytes[k + 3])
  }

  /** The four bytes that store w, most significant first. */
  function EncodeWord(w: nat): (bs: seq<Byte>)
    requires w < WordBase
    ensures |bs| == 4
  {
    [w / 0x100_0000, (w / 0x1_0000) % 0x100, (w / 0x100) % 0x100, w % 0x100]
  }

  /** Decoding the bytes of a word gives the word back. */
  lemma DecodeEncodeWord(w: nat)
    requires w < WordBase
    ensures WordAt(EncodeWord(w), 0) == w
  {
    var bs := EncodeWord(w);
    assert w / 0x100_0000 * 0x100_0000 + (w / 0x1_0000) % 0x100 * 0x1_0000 == w / 0x1_0000 * 0x1_0000;
    assert w / 0x1_0000 * 0x1_0000 + (w / 0x100) % 0x100 * 0x100 == w / 0x100 * 0x100;
  }

  /** Encoding a decoded word gives its bytes back: the four bytes are determined by the word. */
  lemma EncodeDecodeWord(bytes: seq<Byte>, k: nat)
    requires k + 4 <= |bytes|
    ensures EncodeWord(WordAt(bytes, k)) == bytes[k..k + 4]
  {
    var w := WordAt(bytes, k);
    var b0: int, b1: int, b2: int := bytes[k], bytes[k + 1], bytes[k + 2];
    assert w / 0x100 == b0 * 0x1_0000 + b1 * 0x100 + b2;
    assert w / 0x1_0000 == b0 * 0x100 + b1;
    assert w / 0x100_0000 == b0;
  }

  // ---------------------------------------------------------------------------
  // Pixels and labels.

  /** The product a*b as repeated addition: byte offsets such as image i's start, i*pc, are written
      with it so that the verifier sees them one addition at a time. */
  function Mul(a: nat, b: nat): nat
    decreases a
  {
    if a == 0 then 0 else Mul(a - 1, b) + b
  }

  lemma {:induction false} MulIsProduct(a: nat, b: nat)
    ensures Mul(a, b) == a * b
    decreases a
  {
    if a > 0 {
      MulIsProduct(a - 1, b);
      assert (a - 1) * b + b == a * b;
    }
  }

  /** Image i of n images of pc pixels ends no later than the n images do. */
  lemma {:induction false} ImageOffsetBelow(i: nat, n: nat, pc: nat)
    requires i < n
    ensures Mul(i, pc) + pc <= Mul(n, pc)
    decreases n - i
  {
    if i + 1 < n {
      ImageOffsetBelow(i + 1, n, pc);
    }
  }

  /** rows*cols as the unsigned 32-bit product the loader computes. */
  function PixelCount(rows: nat, cols: nat): (n: nat)
    ensures n < WordBase
  {
    Mul(rows, cols) % WordBase
  }

  /** The pixel count is rows*cols, wrapped around at 2^32. */
  lemma PixelCountWraps(rows: nat, cols: nat)
    ensures PixelCount(rows, cols) == (rows * cols) % WordBase
    ensures rows * cols < WordBase ==> PixelCount(rows, cols) == rows * cols
  {
    MulIsProduct(rows, cols);
  }

  /** A pixel byte scaled to [0, 1] by raw/255.0. */
  function Pixel(b: Byte): (v: real)
    ensures 0.0 <= v <= 1.0
    ensures v * 255.0 == b as real
  {
    b as real / 255.0
  }

  /** The count pixels that start at offset start. */
  function PixelsAt(bytes: seq<Byte>, start: nat, count: nat): (v: Vector)
    requires start + count <= |bytes|
    ensures |v| == count
    ensures forall j :: 0 <= j < count ==> 0.0 <= v[j] <= 1.0
  {
    var v := seq(count, j requires 0 <= j < count => Pixel(bytes[start + j]));
    assert forall j :: 0 <= j < count ==> v[j] == Pixel(bytes[start + j]);
    v
  }

  /** Image i of an image file with n images of pc pixels. */
  function ImageOf(bytes: seq<Byte>, n: nat, pc: nat, i: nat): (v: Vector)
    requires i < n && ImageHeaderSize + Mul(n, pc) <= |bytes|
    ensures |v| == pc
  {
    ImageOffsetBelow(i, n, pc);
    PixelsAt(bytes, ImageHeaderSize + Mul(i, pc), pc)
  }

  /** The label vector of digit k: 1.0 at k, 0.0 elsewhere. */
  function OneHot(k: nat): (v: Vector)
    requires k < LabelClasses
    ensures |v| == LabelClasses
    ensures v[k] == 1.0 && forall j :: 0 <= j < LabelClasses && j != k ==> v[j] == 0.0
  {
    Zeros(LabelClasses)[k := 1.0]
  }

  /** The digit of a label vector is where its 1.0 is: the network's classifier recovers it. */
  lemma OneHotArgMax(k: nat)
    requires k < LabelClasses
    ensures ArgMax(OneHot(k)) == k
  {
    var v := OneHot(k);
    var m := ArgMax(v);
    assert v[m] >= v[k] == 1.0;
  }

  // ---------------------------------------------------------------------------
  // Whole files.

  /** An image file whose magic is right holds a full header and every pixel its header announces. */
  predicate ImageFileComplete(bytes: seq<Byte>) {
    && |bytes| >= 4
    && (WordAt(bytes, 0) == ImageMagic ==>
          && |bytes| >= ImageHeaderSize
          && ImageHeaderSize + Mul(WordAt(bytes, 4), PixelCount(WordAt(bytes, 8), WordAt(bytes, 12))) <= |bytes|)
  }

  /** A label file whose magic is right holds a full header, every label byte its header announces,
      and each such byte names a digit. */
  predicate LabelFileComplete(bytes: seq<Byte>) {
    && |bytes| >= 4
    && (WordAt(bytes, 0) == LabelMagic ==>
          && |bytes| >= LabelHeaderSize
          && LabelHeaderSize + WordAt(bytes, 4) <= |bytes|
          && forall i :: LabelHeaderSize <= i < LabelHeaderSize + WordAt(bytes, 4) ==> bytes[i] < LabelClasses)
  }

  /** What load_mnist_images returns or throws for a file. */
  function DecodeImages(file: Option<seq<Byte>>): (r: Result<seq<Vector>>)
    requires file.Some? ==> ImageFileComplete(file.value)
    ensures r.Err? <==> file.None? || WordAt(file.value, 0) != ImageMagic
    ensures file.None? ==> r == Err(RuntimeError("Could not open image file"))
    ensures r.Ok? ==> |r.value| == WordAt(file.value, 4)
    ensures r.Ok? ==> forall i :: 0 <= i < |r.value| ==>
      |r.value[i]| == PixelCount(WordAt(file.value, 8), WordAt(file.value, 12))
    ensures r.Ok? ==> forall i, j :: 0 <= i < |r.value| && 0 <= j < |r.value[i]| ==> 0.0 <= r.value[i][j] <= 1.0
  {
    if file.None? then Err(RuntimeError("Could not open image file"))
    else
      var bytes := file.value;
      if WordAt(bytes, 0) != ImageMagic then Err(RuntimeError("Invalid image file (magic number wrong)"))
      else
        var n, pc := WordAt(bytes, 4), PixelCount(WordAt(bytes, 8), WordAt(bytes, 12));
        Ok(seq(n, i requires 0 <= i < n => ImageOf(bytes, n, pc, i)))
  }

  /** What load_mnist_labels returns or throws for a file. */
  function DecodeLabels(file: Option<seq<Byte>>): (r: Result<seq<Vector>>)
    requires file.Some? ==> LabelFileComplete(file.value)
    ensures r.Err? <==> file.None? || WordAt(file.value, 0) != LabelMagic
    ensures file.None? ==> r == Err(RuntimeError("Could not open label file"))
    ensures r.Ok? ==> |r.value| == WordAt(file.value, 4)
    ensures r.Ok? ==> forall i :: 0 <= i < |r.value| ==>
      |r.value[i]| == LabelClasses && ArgMax(r.value[i]) == file.value[LabelHeaderSize + i]
    ensures r.Ok? ==> forall i :: 0 <= i < |r.value| ==> r.value[i] == OneHot(file.value[LabelHeaderSize + i])
  {
    if file.None? then Err(RuntimeError("Could not open label file"))
    else
      var bytes := file.value;
      if WordAt(bytes, 0) != LabelMagic then Err(RuntimeError("Invalid label file (magic number wrong)"))
      else
        var n := WordAt(bytes, 4);
        LabelsOneHot(bytes, n);
        Ok(seq(n, i requires 0 <= i < n => OneHot(bytes[LabelHeaderSize + i])))
  }

  lemma LabelsOneHot(bytes: seq<Byte>, n: nat)
    requires LabelHeaderSize + n <= |bytes|
    requires forall i :: LabelHeaderSize <= i < LabelHeaderSize + n ==> bytes[i] < LabelClasses
    ensures forall i :: LabelHeaderSize <= i < LabelHeaderSize + n ==> ArgMax(OneHot(bytes[i])) == bytes[i]
  {
    forall i | LabelHeaderSize <= i < LabelHeaderSize + n
      ensures ArgMax(OneHot(bytes[i])) == bytes[i]
    {
      OneHotArgMax(bytes[i]);
    }
  }

  // ---------------------------------------------------------------------------
  // Writing files, to state what decoding recovers.

  /** The pixel bytes of all images, one image after the other. */
  function Concat(images: seq<seq<Byte>>): (bytes: seq<Byte>)
    decreases |images|
  {
    if |images| == 0 then [] else Concat(images[..|images| - 1]) + images[|images| - 1]
  }

  /** The concatenation of n images of pc pixels is n*pc bytes long. */
  lemma {:induction false} ConcatLength(images: seq<seq<Byte>>, pc: nat)
    requires forall k :: 0 <= k < |images| ==> |images[k]| == pc
    ensures |Concat(images)| == Mul(|images|, pc)
    decreases |images|
  {
    if |images| > 0 {
      ConcatLength(images[..|images| - 1], pc);
    }
  }

  /** Pixel j of image i sits i*pc + j bytes into the concatenation. */
  lemma {:induction false} ConcatAt(images: seq<seq<Byte>>, pc: nat, i: nat, j: nat)
    requires forall k :: 0 <= k < |images| ==> |images[k]| == pc
    requires i < |images| && j < pc
    ensures Mul(i, pc) + j < |Concat(images)| && Concat(images)[Mul(i, pc) + j] == images[i][j]
    decreases |images|
  {
    var n := |images| - 1;
    ConcatLength(images[..n], pc);
    ConcatLength(images, pc);
    assert Concat(images) == Concat(images[..n]) + images[n];
    if i < n {
      ConcatAt(images[..n], pc, i, j);
      ImageOffsetBelow(i, n, pc);
      assert images[..n][i] == images[i];
    }
  }

  /** An image file holding the given images of rows x cols pixels. */
  function EncodeImages(rows: nat, cols: nat, images: seq<seq<Byte>>): (bytes: seq<Byte>)
    requires rows < WordBase && cols < WordBase && |images| < WordBase
  {
    EncodeWord(ImageMagic) + EncodeWord(|images|) + EncodeWord(rows) + EncodeWord(cols) + Concat(images)
  }

  /** Pixel j of image i is the byte i*pc + j places after the header, divided by 255. */
  lemma DecodedPixel(bytes: seq<Byte>, i: nat, j: nat)
    requires ImageFileComplete(bytes) && WordAt(bytes, 0) == ImageMagic
    requires i < WordAt(bytes, 4) && j < PixelCount(WordAt(bytes, 8), WordAt(bytes, 12))
    ensures ImageHeaderSize + Mul(i, PixelCount(WordAt(bytes, 8), WordAt(bytes, 12))) + j < |bytes|
    ensures DecodeImages(Some(bytes)).value[i][j] ==
      Pixel(bytes[ImageHeaderSize + Mul(i, PixelCount(WordAt(bytes, 8), WordAt(bytes, 12))) + j])
  {
    var n, pc := WordAt(bytes, 4), PixelCount(WordAt(bytes, 8), WordAt(bytes, 12));
    ImageOffsetBelow(i, n, pc);
    assert DecodeImages(Some(bytes)).value[i] == ImageOf(bytes, n, pc, i);
  }

  /** The word stored in four bytes is read back from them wherever they sit. */
  lemma WordAtEncoded(bytes: seq<Byte>, k: nat, w: nat)
    requires w < WordBase && k + 4 <= |bytes| && bytes[k..k + 4] == EncodeWord(w)
    ensures WordAt(bytes, k) == w
  {
    DecodeEncodeWord(w);
    var e := EncodeWord(w);
    assert bytes[k] == e[0] && bytes[k + 1] == e[1] && bytes[k + 2] == e[2] && bytes[k + 3] == e[3];
  }

  /** Loading an encoded image file recovers every pixel byte. */
  lemma ImagesRoundTrip(rows: nat, cols: nat, images: seq<seq<Byte>>)
    requires rows < WordBase && cols < WordBase && |images| < WordBase
    requires forall k :: 0 <= k < |images| ==> |images[k]| == PixelCount(rows, cols)
    ensures ImageFileComplete(EncodeImages(rows, cols, images))
    ensures var r := DecodeImages(Some(EncodeImages(rows, cols, images)));
      && r.Ok? && |r.value| == |images|
      && (forall i :: 0 <= i < |images| ==> |r.value[i]| == |images[i]|)
      && (forall i, j :: 0 <= i < |images| && 0 <= j < |images[i]| ==> r.value[i][j] * 255.0 == images[i][j] as real)
  {
    var pc := PixelCount(rows, cols);
    var body := Concat(images);
    ConcatLength(images, pc);
    var header := EncodeWord(ImageMagic) + EncodeWord(|images|) + EncodeWord(rows) + EncodeWord(cols);
    var bytes := header + body;
    assert bytes == EncodeImages(rows, cols, images);
    WordAtEncoded(bytes, 0, ImageMagic);
    WordAtEncoded(bytes, 4, |images|);
    WordAtEncoded(bytes, 8, rows);
    WordAtEncoded(bytes, 12, cols);
    assert ImageFileComplete(bytes);
    var r := DecodeImages(Some(bytes));
    forall i, j | 0 <= i < |images| && 0 <= j < |images[i]|
      ensures r.value[i][j] * 255.0 == images[i][j] as real
    {
      DecodedPixel(bytes, i, j);
      ConcatAt(images, pc, i, j);
      assert bytes[ImageHeaderSize + Mul(i, pc) + j] == body[Mul(i, pc) + j];
    }
  }

  /** A label file holding the given digits. */
  function EncodeLabels(digits: seq<Byte>): (bytes: seq<Byte>)
    requires |digits| < WordBase
  {
    EncodeWord(LabelMagic) + EncodeWord(|digits|) + digits
  }

  /** Loading an encoded label file gives back each digit as the index of its one-hot vector. */
  lemma LabelsRoundTrip(digits: seq<Byte>)
    requires |digits| < WordBase
    requires forall k :: 0 <= k < |digits| ==> digits[k] < LabelClasses
    ensures LabelFileComplete(EncodeLabels(digits))
    ensures var r := DecodeLabels(Some(EncodeLabels(digits)));
      && r.Ok? && |r.value| == |digits|
      && forall i :: 0 <= i < |digits| ==> ArgMax(r.value[i]) == digits[i]
  {
    var bytes := EncodeWord(LabelMagic) + EncodeWord(|digits|) + digits;
    assert bytes == EncodeLabels(digits);
    WordAtEncoded(bytes, 0, LabelMagic);
    WordAtEncoded(bytes, 4, |digits|);
    assert forall k :: 0 <= k < |digits| ==> bytes[LabelHeaderSize + k] == digits[k];
    assert LabelFileComplete(bytes);
  }

  // ---------------------------------------------------------------------------
  // The loader.

  /** An open binary input file: its contents and the read position. */
  class ByteStream {
    const data: seq<Byte>
    var pos: nat

    constructor(contents: seq<Byte>)
      ensures data == contents && pos == 0
    {
      data := contents;
      pos := 0;
    }

    /** Reads one byte. */
    method ReadByte() returns (b: Byte)
      requires pos < |data|
      modifies this
      ensures b == data[old(pos)] && pos == old(pos) + 1
    {
      b := data[pos];
      pos := pos + 1;
    }

    /** extract: reads four bytes and combines them most significant first. */
    method ReadWord() returns (w: nat)
      requires pos + 4 <= |data|
      modifies this
      ensures w == WordAt(data, old(pos)) && pos == old(pos) + 4
    {
      var b0 := ReadByte();
      var b1 := ReadByte();
      var b2 := ReadByte();
      var b3 := ReadByte();
      w := WordOf(b0, b1, b2, b3);
    }
  }

  /** The inner loop of load_mnist_images: reads one pixel byte per entry of the image. */
  method ReadPixels(f: ByteStream, image0: Vector) returns (image: Vector)
    requires f.pos + |image0| <= |f.data|
    modifies f
    ensures f.pos == old(f.pos) + |image0|
    ensures image == PixelsAt(f.data, old(f.pos), |image0|)
  {
    image := image0;
    for j := 0 to |image0|
      invariant f.pos == old(f.pos) + j && |image| == |image0|
      invariant forall k :: 0 <= k < j ==> image[k] == Pixel(f.data[old(f.pos) + k])
    {
      var raw := f.ReadByte();
      image := image[j := Pixel(raw)];
    }
  }

  /** The first i images hold their pixels and the rest are still zero. */
  ghost predicate ImagesSoFar(bytes: seq<Byte>, n: nat, pc: nat, images: seq<Vector>, i: nat) {
    && ImageHeaderSize + Mul(n, pc) <= |bytes| && i <= n && |images| == n
    && (forall k :: 0 <= k < i ==> images[k] == ImageOf(bytes, n, pc, k))
    && (forall k :: i <= k < n ==> images[k] == Zeros(pc))
  }

  /** One turn of the outer loop of load_mnist_images: fills image i from the stream. */
  method ReadImage(f: ByteStream, images: seq<Vector>, n: nat, pc: nat, i: nat) returns (next: seq<Vector>)
    requires ImagesSoFar(f.data, n, pc, images, i) && i < n && f.pos == ImageHeaderSize + Mul(i, pc)
    modifies f
    ensures ImagesSoFar(f.data, n, pc, next, i + 1) && f.pos == ImageHeaderSize + Mul(i + 1, pc)
  {
    ImageOffsetBelow(i, n, pc);
    var image := ReadPixels(f, images[i]);
    next := images[i := image];
  }

  /** Once every image is filled, the images are what load_mnist_images returns. */
  lemma ImagesDecoded(bytes: seq<Byte>, images: seq<Vector>)
    requires ImageFileComplete(bytes) && WordAt(bytes, 0) == ImageMagic
    requires var n := WordAt(bytes, 4);
      ImagesSoFar(bytes, n, PixelCount(WordAt(bytes, 8), WordAt(bytes, 12)), images, n)
    ensures DecodeImages(Some(bytes)) == Ok(images)
  {
    var r := DecodeImages(Some(bytes));
    assert forall k :: 0 <= k < |images| ==> images[k] == r.value[k];
    assert images == r.value;
  }

  /** load_mnist_images. */
  method LoadImages(file: Option<seq<Byte>>) returns (r: Result<seq<Vector>>)
    requires file.Some? ==> ImageFileComplete(file.value)
    ensures r == DecodeImages(file)
  {
    if file.None? {
      return Err(RuntimeError("Could not open image file"));
    }
    var f := new ByteStream(file.value);
    var magic := f.ReadWord();
    if magic != ImageMagic {
      return Err(RuntimeError("Invalid image file (magic number wrong)"));
    }
    var numImages := f.ReadWord();
    var rows := f.ReadWord();
    var cols := f.ReadWord();
    var n, pc := numImages, PixelCount(rows, cols);
    var images := seq(n, _ => Zeros(pc));
    for i := 0 to n
      invariant f.data == file.value && f.pos == ImageHeaderSize + Mul(i, pc)
      invariant ImagesSoFar(f.data, n, pc, images, i)
    {
      images := ReadImage(f, images, n, pc, i);
    }
    ImagesDecoded(file.value, images);
    r := Ok(images);
  }

  /** load_mnist_labels. */
  method LoadLabels(file: Option<seq<Byte>>) returns (r: Result<seq<Vector>>)
    requires file.Some? ==> LabelFileComplete(file.value)
    ensures r == DecodeLabels(file)
  {
    if file.None? {
      return Err(RuntimeError("Could not open label file"));
    }
    var f := new ByteStream(file.value);
    var magic := f.ReadWord();
    if magic != LabelMagic {
      return Err(RuntimeError("Invalid label file (magic number wrong)"));
    }
    var labelCount := f.ReadWord();
    var n := labelCount;
    var labels := seq(n, _ => Zeros(LabelClasses));
    for i := 0 to n
      invariant f.data == file.value && f.pos == LabelHeaderSize + i
      invariant |labels| == n
      invariant forall k :: 0 <= k < i ==> labels[k] == OneHot(f.data[LabelHeaderSize + k])
      invariant forall k :: i <= k < n ==> labels[k] == Zeros(LabelClasses)
    {
      var raw := f.ReadByte();
      labels := labels[i := labels[i][raw := 1.0]];
    }
    assert forall k :: 0 <= k < n ==> labels[k] == DecodeLabels(file).value[k];
    assert labels == DecodeLabels(file).value;
    r := Ok(labels);
  }
}
