# Meme generator: caption layout, upload check and output naming

This project models the logic of a small Flask meme generator (`app.py`).
A user uploads an image and two captions. The application checks the file
extension, stores the file, draws the top caption and the bottom caption on
the image, and names the result `meme_<basename>`.

What is modelled:

- **`allowed_file`** (module `Upload`). A name is accepted only when it
  contains a `.` and the text after its **last** `.`, lower-cased, is one of
  `png`, `jpg`, `jpeg`, `gif`. The string operations it uses are modelled in
  module `Text`: `rsplit('.', 1)`, `rfind` and ASCII `lower()`.
- **`create_meme` and `draw_outlined_text`** (module `Meme`). The image and
  its drawing context are a class `Canvas`. Its width and height never change.
  Its field `drawn` is the append-only list of `draw.text` calls made on it.
  `DrawOutlinedText` keeps the source's nested `for dx` / `for dy` loops and is
  proved equal to the pure function `OutlinedText`: nine black stamps at the
  offsets {-2,0,2}×{-2,0,2} with `dx` in the outer loop, then one white stamp
  at the position itself. `CreateMeme` chooses the font and draws the top
  caption and then the bottom caption, skipping each one that is empty. It is
  proved equal to the pure plan `Captions`. Lemmas about `Captions` give its
  length (10 per non-empty caption) and every command by index.
- **Placement arithmetic.** The font size is `int(height / 10)` with arial.ttf
  and `int(height / 20)` on the fallback path. The top caption is at
  `((width - w) / 2, 10)`. The bottom caption is at
  `((width - w) / 2, height - h - 10)`. `x` is a `real`, as Python 3's `/` gives
  a true quotient. Nothing is clipped, so `x` is negative exactly when the text
  is wider than the image.
- **Output name** (module `Naming`). The upload is stored at
  `os.path.join("uploads", name)`, and the meme is named `"meme_" +
  os.path.basename(...)` of that path. Both use POSIX path rules. The model
  proves that the upload folder never shows in the result, so the output name
  is `"meme_" + basename(name)`. It also proves that the output name of an
  accepted upload passes the extension check again.

The font size truncates with `int(...)`; it does not round. The centring
divides exactly; `x` is not rounded.

## Model

| member | source | states |
|---|---|---|
| `Text.LastIndexOf` | app.py:21 | the search behind `rsplit`: -1 exactly when the character is absent, otherwise an index holding it with no later occurrence |
| `Text.RSplitOnce` | app.py:21 | `rsplit(sep, 1)`: one part, equal to the input, when `sep` is absent; otherwise two parts that rebuild the input around one `sep`, the second part free of `sep` |
| `Text.Lower` | app.py:21 | `lower()` keeps the length and lower-cases each character in place (ASCII letters only) |
| `Upload.AllowedFile` | app.py:18-21 | a name without a `.` is never accepted |
| `Upload.AllowedFileBySuffix` | app.py:18-21 | for any `stem + "." + ext` with no dot in `ext`, the name is accepted if and only if `ext` lower-cased is in the allow-list of line 12; the stem never matters |
| `Upload.AllowedFileIgnoresCase` | app.py:21 | lower-casing the whole name never changes the verdict |
| `Upload.AcceptsLastSuffixInAnyCase` | app.py:20-21 | `a.tar.PNG` is accepted: only the last suffix counts, in any case |
| `Upload.AcceptsEmptyStem` | app.py:20-21 | `.gif` is accepted: the text before the dot may be empty |
| `Upload.RejectsEarlierSuffix` | app.py:20-21 | `x.png.exe` is refused: an image suffix that is not last does not help |
| `Upload.RejectsMissingSuffix` | app.py:20-21 | `png` (no dot) and `photo.` (empty suffix) are refused |
| `Naming.JoinPath` | app.py:129 | `os.path.join(dir, name)`: an absolute `name` replaces `dir`; otherwise the result is `dir`, then exactly one added `/` unless `dir` is empty or already ends in `/`, then `name` |
| `Naming.Basename` | app.py:133 | `os.path.basename`: the longest suffix without a `/` |
| `Naming.BasenameOfJoin` | app.py:129-133 | the basename of the stored path equals the basename of the uploaded name, whatever the folder |
| `Naming.OutputFilename` | app.py:133 | the output name is `"meme_"` followed by the basename of the uploaded name |
| `Naming.OutputFilenameIsFlat` | app.py:133 | the output name has no `/`, and for an upload name without `/` it is `"meme_" + name` |
| `Naming.AllowedExtensionIsFlat` | app.py:12 | no allowed extension contains a `/` |
| `Naming.OutputKeepsAllowedExtension` | app.py:127-133 | the output name of an accepted upload is accepted by the same check |
| `Meme.FontSize` | app.py:36-43 | the size is the floor of height/10 on the arial.ttf path and of height/20 on the fallback path |
| `Meme.FallbackFontSizeIsHalf` | app.py:38-42 | the fallback size is half the arial.ttf size, rounded down |
| `Meme.ResolveFont` | app.py:36-43 | arial.ttf is used exactly when it loads, and then at the floor of height/10; otherwise the built-in font |
| `Meme.CenterX` | app.py:68 | `2x + text_width == width`, and `x < 0` exactly when the text is wider than the image |
| `Meme.TopOrigin` | app.py:68-69 | the top caption is centred (`2x + w == width`) at `y == 10` |
| `Meme.BottomOrigin` | app.py:88-89 | the bottom caption is centred and `y + text_height + 10 == height` |
| `Meme.ColumnAt` | app.py:50-51 | the inner loop's j-th command is the stamp at offset `dys[j]` |
| `Meme.GridAt` | app.py:49-51 | both loops together: the stamp for `(dxs[i], dys[j])` is command `3i + j`, so `dx` is the outer loop |
| `Meme.OutlinedTextAt` | app.py:46-53 | `draw_outlined_text` issues exactly ten commands: command k < 9 is the outline stamp at `(x + [-2,0,2][k/3], y + [-2,0,2][k%3])`, command 9 the fill at `(x, y)` |
| `Meme.OutlineThenFill` | app.py:49-53 | the nine outline stamps are in the outline colour within 2 px of the position, and the last command is the fill exactly at the position |
| `Meme.Captions` | app.py:55-93 | the plan has 10 commands per non-empty caption, and none when both captions are empty |
| `Meme.CaptionsAt` | app.py:55-93 | the top caption's ten commands (if non-empty) come first, then the bottom caption's; each command is the k-th stroke at that caption's origin |
| `Meme.Canvas.constructor` | app.py:27-33 | an opened image has the given width and height and nothing drawn on it |
| `Meme.Canvas.DrawText` | app.py:51 | `draw.text` appends exactly one command to the image and changes nothing else |
| `Meme.DrawOutlinedText` | app.py:46-53 | the nested loops append exactly `OutlinedText(position, …)` to what was drawn before |
| `Meme.CreateMeme` | app.py:23-97 | the image receives exactly the plan `Captions(...)` for its own size and the chosen font, and nothing when both captions are empty |

## Left out

- Flask routing and request handling (`index` apart from line 133, `download`, `view_meme`): web plumbing and template rendering.
- File system I/O: creating the folders, saving the upload, `Image.open`, `img.save`, `send_file`. `CreateMeme` starts from an opened image and does not return the output path, which it only passes through.
- Pillow's font loading: whether `ImageFont.truetype("arial.ttf", size)` succeeds is the input `arialLoads`.
- Images lower than 10 px: `font_size` is then 0, and depending on the Pillow version `truetype` may raise an error other than `IOError`, which escapes the `except IOError` and makes `create_meme` fail instead of falling back. Neither value of `arialLoads` models that failure.
- Pillow's text measurement: `textbbox`/`textsize` is a foreign call, so each caption's measured width and height is an input `Extent`. The fallback between the two calls is a library-version shim.
- Pixel rasterisation: the image is modelled as its fixed size and the list of draw calls made on it, not as pixels. Its dimensions never change because they are constant fields.
- Floating point: `x = (width - w) / 2` is an exact `real` and `int(height / 10)` is exact floor division on a non-negative height. IEEE rounding is not modelled.
- Text.Lower: lower-cases ASCII letters only. Python's `str.lower` also maps other characters, but none of them to a lone ASCII letter of `png`, `jpg`, `jpeg` or `gif`, so the extension check gives the same answer.
- Naming.JoinPath, Naming.Basename: POSIX path rules only (`posixpath`). Windows path rules are not modelled.
- Meme.GridAt: stated for columns of three offsets, which is the only grid `draw_outlined_text` draws.
- `MAX_CONTENT_LENGTH` (5 MiB) is enforced by Flask, not by this code.
- The development server entry point.
