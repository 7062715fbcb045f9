# hello-graphics in Dafny

A model of the core of `hello-graphics`, a small software rasteriser written in Rust, and proofs about that model. It covers:

- the raster maths: the edge function, barycentric weights, triangle area, the pixel bounding box and the 4×4 transformation matrices;
- the pinhole camera;
- the z-buffer and the frame buffer, the row iterators they hand out, and a frame's dump into a byte slice;
- the `Rgb` pixel and its truncating float-to-byte cast;
- the Gouraud, monochrome and checkerboard shaders;
- the program's per-pixel render loop and the depth-tested loop of the integration test;
- the plain Netpbm (PBM/PGM/PPM) encoder over a writer that may fail;
- the hand-written `Vec2d`, `Vec3d`, `Vec4d` and `Matrix4x4` types.

How the Rust source maps to Dafny:

- Every floating-point type is `real`. `u8` is `Prim.byte` and `u32` is `Prim.u32`.
- The saturating float-to-`u8` cast is `Prim.SaturateU8`.
- A division by zero becomes a precondition.
- The `+∞` that the z-buffer starts from is the `Inf` case of `ZBuf.Depth`.
- An `assert!` that can fail inside a matrix constructor makes that constructor return an `Option` (`None` is the panic).
- An index out of range on a buffer is a precondition.
- A panic in the middle of `write_image` is the outcome `Panicked`, because the output written before the panic still counts.
- Buffers and writers that Rust updates in place are classes with `seq` fields and `modifies` clauses.
- A `&mut self` method on a `Copy` value (vectors, `Matrix4x4`, `Rgb`, nalgebra's `Vector3`) becomes a method that takes the old value and returns the new one. The method updates one component at a time, as the source does.

Some quirks of the source are modelled as written, and lemmas exhibit them:

- `dump_frame` writes channel `c` of pixel `(i, j)` at `width * i + j + c`, without the factor 3, so the dump does not round-trip.
- Both row iterators step `index` before reading, so row 0 is never produced.
- `FrameBuffer::initialize` appends pixels instead of overwriting them.
- The checkerboard's `%` keeps the sign of its left operand, so the pattern is mirrored across zero.
- `Display` for `Rgb` does not pad, so two different colours can print alike.
- `vec_disp_multiply` takes its offsets from column 3, the same column it uses for `w`.

## Model

| member | source | states |
|---|---|---|
| Util.Min3 | src/util.rs:6-8 | The result is at most each argument and equals one of them. |
| Util.Max3 | src/util.rs:11-13 | The result is at least each argument, equals one of them, and is never below `min3` of the same arguments. |
| Raster.PerspectiveMatrix | src/raster.rs:67-96 | The assertion fails exactly when `near <= far`. Otherwise the bottom row is `(0, 0, 1, 0)`, so the result's w is the point's z. |
| Raster.TranslationMatrix | src/raster.rs:101-128 | The identity with `eye` in the last column; it has no contract of its own, and the three lemmas below state what it does. |
| Raster.TranslationMovesPoints | src/raster.rs:101-128 | The translation matrix maps the homogeneous point `(p, 1)` to `(p + eye, 1)`. |
| Raster.TranslationFixesDirections | src/raster.rs:101-128 | The translation matrix leaves every vector with `w = 0` unchanged. |
| Raster.TranslationByZeroIsIdentity | src/raster.rs:437-447 | Translation by the zero vector is the identity on every vector. |
| Raster.OrthographicMatrix | src/raster.rs:172-207 | The assertion fails exactly when `near <= far`. The denominators `right - left` and `top - bottom` must be non-zero. |
| Raster.OrthographicMapsBoxToCanonicalVolume | src/raster.rs:172-207 | The orthographic matrix sends the corner `(left, bottom, far)` of the view box to `(-1, -1, -1)` and the corner `(right, top, near)` to `(1, 1, 1)`. |
| Raster.PerspectiveProjectionMatrix | src/raster.rs:213-246 | Needs `right != left`, `top != bottom` and `near != far`. It has no contract of its own; the next lemma ties it to the orthographic and perspective matrices. |
| Raster.PerspectiveProjectionIsOrthographicAfterPerspective | src/raster.rs:213-246 | Whenever the orthographic and perspective matrices exist, their product equals `perspective_projection_matrix` exactly, as the test at lines 416-435 checks. |
| Raster.Viewport | src/raster.rs:278-299 | The closed-form viewport matrix; it has no contract of its own, and `ViewportMapsCanonicalSquareToPixels` states where it sends the canonical square. |
| Raster.ViewportMatrix | src/raster.rs:260-300 | The two counting loops end at `num_x` and `num_y`, so the result is the viewport matrix of those sizes. |
| Raster.ViewportMapsCanonicalSquareToPixels | src/raster.rs:260-300 | The viewport sends x = -1 to -0.5 and x = 1 to `num_x - 0.5`, does the same for y with `num_y`, and passes z through. |
| Raster.WorldToRasterMatrix | src/raster.rs:303-317 | The result is the viewport matrix times the perspective projection matrix. |
| Raster.BoundingBoxOf | src/raster.rs:329-345 | The box has whole-number sides, holds all three points, and is the tightest such box. It is not clipped to the image. |
| Raster.BoundingBoxExample | src/raster.rs:399-414 | The source's test triangle has the box `(-48, 29, -15, 34)`. |
| Raster.Edge | src/raster.rs:351-357 | `(p.x - v1.x)(v2.y - v1.y) - (p.y - v1.y)(v2.x - v1.x)`; it has no contract of its own, and the three lemmas below state its properties. |
| Raster.EdgeAntisymmetric | src/raster.rs:351-357 | The edge function is zero at the edge's end points and changes sign when the edge is reversed. |
| Raster.EdgeRotation | src/raster.rs:351-357 | The edge function is unchanged when its three points are rotated. |
| Raster.EdgeAffine | src/raster.rs:351-357 | The edge function is affine in the point it is evaluated at. |
| Raster.Barycentric | src/raster.rs:363-374 | Each weight is the edge function of the edge opposite one vertex. |
| Raster.BarycentricSum | src/raster.rs:363-374 | The three weights always add up to the triangle's edge value, and at a vertex all of that value sits on that vertex. |
| Raster.ComputeArea | src/raster.rs:379-385 | The area is non-negative and is plus or minus the triangle's edge value. |
| Raster.AreaPermutationInvariant | src/raster.rs:554-570 | The area is the same for all six orders of the vertices. |
| Raster.NormalizedWeightsSum | src/main.rs:88-90 | The weights divided by the area add up to 1 for a triangle with a positive edge value and to -1 otherwise. |
| Camera.NewModel | src/camera.rs:34-53 | Keeps the specification unchanged, and sets `r/n` and `t/n` to the aperture over twice the focal length, with `l/n = -r/n` and `b/n = -t/n`. |
| Camera.FromSpec | src/camera.rs:71-74 | Gives the camera of the specification `(focal_length, aperture_width, aperture_height)`. |
| Camera.GetMatrix | src/camera.rs:59-66 | Fails exactly when `near <= far`. Otherwise the x and y offsets are 0, and the x and y scales are fixed by the focal length, the aperture and `near`. |
| Color.FromChannels | src/color/rgb.rs:15-34 | `r()`, `g()` and `b()` return the three channels given. |
| Color.Rgb.Channels | src/color/rgb.rs:38-45 | `channels()` is `[r, g, b]`, of length `channel_count() = 3`. |
| Color.Rgb.Index | src/color/rgb.rs:48-55 | Index 0, 1 and 2 give r, g and b. |
| Color.SetChannel | src/color/rgb.rs:57-62 | Writing channel `i` changes that channel only. |
| Color.FromArray | src/color/rgb.rs:64-78 | The channels of the converted pixel are the array's three bytes, in order. |
| Color.FromTuple | src/color/rgb.rs:80-86 | The channels of the converted pixel are the tuple's three fields, in order. |
| Color.ChannelsRoundTrip | src/color/rgb.rs:43-86 | Converting a pixel's channels, or its `(r, g, b)` tuple, back gives the same pixel. |
| Color.Default | src/color/rgb.rs:88-92 | Every channel of the default pixel is 0. |
| Color.Display | src/color/rgb.rs:94-98 | The text is `0x` followed by the unpadded upper-case hexadecimal digits of r, then g, then b; it has 5 to 8 characters, and every character after `0x` is a hexadecimal digit. |
| Color.DisplayReadsBackTwoDigitChannels | src/color/rgb.rs:94-98 | When every channel is at least 16, the text has 8 characters and its three digit pairs read back as r, g and b. |
| Color.DisplayInjectiveOnTwoDigitChannels | src/color/rgb.rs:94-98 | Two colours whose channels are all at least 16 print alike only when they are equal. |
| Color.DisplayIsAmbiguous | src/color/rgb.rs:94-98 | `(1, 16, 0)` and `(17, 0, 0)` both print as `0x1100`. |
| Color.CastChannel | src/color/rgb.rs:113-118 | For a component in `[0, 1]` the byte is `255 c` rounded down. Components below 0 give 0 and components above 1 give 255. |
| Color.RgbCast | src/color/rgb.rs:106-141 | Each channel is its component times 255, truncated, for components in `[0, 1]`. |
| Color.RgbCastTruncates | src/color/rgb.rs:113-118 | The cast truncates rather than rounds: 0.999 gives 254. |
| Shade.Gouraud | src/shade.rs:10-17 | `c0 * b[0] + c1 * b[1] + c2 * b[2]` on vectors; it has no contract of its own, and the lemmas below state its properties. |
| Shade.GouraudChannels | src/shade.rs:10-17 | Each channel of the shade is the weighted sum of that channel of the three vertex colours. |
| Shade.GouraudAtVertices | src/shade.rs:10-17 | The weights `(1, 0, 0)`, `(0, 1, 0)` and `(0, 0, 1)` give the colours of vertex 0, 1 and 2. |
| Shade.GouraudOfOneColour | src/shade.rs:10-17 | A triangle of one colour shades to that colour whenever the weights add up to 1. |
| Shade.GouraudIsConvex | src/shade.rs:10-17 | With non-negative weights adding up to 1, each channel of the shade (x, y and z) stays within the bounds that channel has at the three vertices. |
| Shade.Pattern | src/shade.rs:39 | The value is 0 or 1. It is 1 exactly when one, and only one, of "remainder of `s m` above 1/2" and "remainder of `t m` below 1/2" holds. |
| Shade.PatternPeriodic | src/shade.rs:39 | On non-negative coordinates the pattern repeats with period 1 in each direction. |
| Shade.PatternMirroredAtZero | src/shade.rs:39 | The truncated remainder mirrors the pattern across zero: -0.25 and 0.75 get opposite values. |
| Shade.CorrectedChecker | src/shade.rs:31-41 | The colour is a grey `(p, p, p)` with `p` in `{0, 1}`. `p` is set by the pattern at the coordinates divided by the depth and scaled by `m`. |
| Shade.Checkerboard | src/shade.rs:23-42 | Needs a non-zero interpolated depth `d`. The colour is a grey `(p, p, p)` with `p` in `{0, 1}`, and `p = 1` exactly when one, and only one, of "remainder of `s (1/d) 10` above 1/2" and "remainder of `t (1/d) 10` below 1/2" holds, where `s` and `t` are the interpolated texture coordinates. |
| Shade.ColorRgb | src/shade.rs:48-54 | The conversion agrees with `Rgb::rgb_cast`. |
| Shade.PerspectiveCorrect | src/shade.rs:60-65 | Needs a non-zero depth. x and y are divided by the depth, and z is kept. |
| Shade.PerspectiveCorrectInPlace | src/shade.rs:71-77 | Leaves the attribute equal to `perspective_correct` of its old value. |
| ShaderGouraud.Shader | src/shader/gouraud.rs:5-7 | The factory returns `Gouraud::Proc`. |
| ShaderGouraud.Apply | src/shader/gouraud.rs:16-20 | `apply` agrees with `shade::gouraud` on the same arguments. |
| ShaderMonochrome.Shader | src/shader/monochrome.rs:10-25 | The factory stores the colour it is given. |
| ShaderMonochrome.Apply | src/shader/monochrome.rs:34-37 | `apply` returns the stored colour. |
| ShaderMonochrome.IgnoresWeights | src/shader/monochrome.rs:33-37 | Two calls with different weights give the same colour. |
| ShaderMonochrome.ReturnsItsColour | src/shader/monochrome.rs:49-59 | The colour `(0.4, 0.3, 0.3)` with weights `(0.2, 0.5, 0.3)` shades to `(0.4, 0.3, 0.3)`. |
| ShaderCheckerboard.Shader | src/shader/checkerboard.rs:11-27 | The factory stores the number of squares. |
| ShaderCheckerboard.Apply | src/shader/checkerboard.rs:44-55 | Needs a non-zero interpolated depth `d`. The colour is a grey `(p, p, p)` with `p` in `{0, 1}`, and `p = 1` exactly when one, and only one, of "remainder of `s (1/d) m` above 1/2" and "remainder of `t (1/d) m` below 1/2" holds, with `m = n_squares`. |
| ShaderCheckerboard.TenSquaresMatchReference | src/shader/checkerboard.rs:77-116 | With ten squares, `apply` equals the reference `checkerboard` (and `shade::checkerboard`) for every argument with a non-zero depth. |
| TextureMap.Apply | src/shader/texture.rs:5-7 | Applying a shader dispatches to its own `apply`: the Gouraud blend, the monochrome colour, or the checkerboard shader's grey of 0 or 1. |
| ZBuf.EverythingIsCloserThanInfinity | src/z_buffer.rs:43-51 | Every finite depth passes the depth test against the `+∞` the buffer is initialized to. |
| ZBuf.ZBuffer.New | src/z_buffer.rs:21-41 | Records the dimensions and makes `height` rows of `width` cells, every cell 0. |
| ZBuf.ZBuffer.Initialize | src/z_buffer.rs:43-51 | Keeps the dimensions and sets every cell to `+∞`; the result depends on the dimensions only, so initializing twice is the same as once. |
| ZBuf.ZBuffer.Width | src/z_buffer.rs:53-55 | Every row has `width()` cells. |
| ZBuf.ZBuffer.Height | src/z_buffer.rs:57-59 | `height()` is the number of rows. |
| ZBuf.ZBuffer.Lines | src/z_buffer.rs:61-66 | Gives a fresh iterator at index 0 over the current rows. |
| ZBuf.ZBuffer.Get | tests/integration_tests.rs:84 | Reading pixel `(i, j)` gives its stored depth. |
| ZBuf.ZBuffer.Set | tests/integration_tests.rs:85 | Storing a depth at `(i, j)` changes that cell only. |
| ZBuf.MakeZBuffer | src/z_buffer.rs:5-10 | Gives a new `width` by `height` buffer with every cell `+∞`. |
| ZBuf.InitializedLines | src/z_buffer.rs:90-118 | A new buffer reports its dimensions. Its line iterator yields `height - 1` rows, each of `width` cells, all `+∞`. |
| Grid.RowIter.constructor | src/z_buffer.rs:61-66 | A new iterator starts at index 0 over the given rows. |
| Grid.RowIter.Next | src/z_buffer.rs:77-84 | Steps the index, then yields the row at the new index if there is one; row 0 is therefore never yielded. |
| Grid.RowIter.Drain | src/frame_buffer.rs:82-89 | Iterating to the end yields exactly the rows after the current index, in order. |
| FrameBuf.FrameBuffer.New | src/frame_buffer.rs:20-32 | Records the dimensions and makes `height` empty rows. |
| FrameBuf.FrameBuffer.Initialize | src/frame_buffer.rs:34-40 | Keeps the dimensions and appends `width` black pixels to every row. |
| FrameBuf.FrameBuffer.Width | src/frame_buffer.rs:42-44 | `width()` is the width the buffer was made with. |
| FrameBuf.FrameBuffer.Height | src/frame_buffer.rs:46-48 | `height()` is the number of rows. |
| FrameBuf.FrameBuffer.Row | src/frame_buffer.rs:92-106 | Indexing gives row `i`. A row past the last is excluded, as the source panics there. |
| FrameBuf.FrameBuffer.SetPixel | src/frame_buffer.rs:108-112 | Writing pixel `(i, j)` through `IndexMut` changes that pixel only. |
| FrameBuf.FrameBuffer.DumpFrame | src/frame_buffer.rs:50-64 | When the slice has fewer than `3 * height * width` bytes, returns `None` and writes nothing. Otherwise returns `Some(3 * height * width)`, and the slice holds the overlapping row-major writes at `width * i + j + c`. |
| FrameBuf.FrameBuffer.Scanlines | src/frame_buffer.rs:66-71 | Gives a fresh iterator at index 0 over the current rows. |
| FrameBuf.Flatten | src/frame_buffer.rs:52-58 | The pixels in row-major order: `width` pixels from each of the first `n` rows. |
| FrameBuf.FlattenAt | src/frame_buffer.rs:52-58 | Pixel `(i, j)` sits at position `width * i + j` of the row-major order. |
| FrameBuf.DumpIndexInBounds | src/frame_buffer.rs:51-58 | Every index the dump writes is below `3 * height * width`, so a slice that passes the size check is never overrun. |
| FrameBuf.DumpedPixelRed | src/frame_buffer.rs:52-58 | After a dump, byte `width * i + j` is the red channel of pixel `(i, j)`. |
| FrameBuf.MakeFrameBuffer | src/frame_buffer.rs:6-11 | Gives a new `width` by `height` buffer whose rows hold `width` black pixels each. |
| FrameBuf.InitializedScanlines | src/frame_buffer.rs:119-145 | A new buffer reports its dimensions. Its scanline iterator yields `height - 1` rows of `width` black pixels. |
| FrameBuf.DumpIntoEmptySlice | src/frame_buffer.rs:147-169 | The test's slice has no length, so the dump returns `None` exactly when the frame is non-empty. |
| FrameBuf.DumpDoesNotRoundTrip | src/frame_buffer.rs:52-58 | Two red pixels dump as `(255, 255, 0, …)`, and the first three bytes do not read back as red. |
| DepthTest.DepthTestWrite | tests/integration_tests.rs:82-88 | When `z` is nearer than the stored depth, stores it and whitens the pixel. Otherwise neither buffer changes. |
| DepthTest.RenderDepthTested | tests/integration_tests.rs:75-91 | From an all-`+∞` buffer, every covered pixel passes the test. The frame whitens exactly the covered pixels, and the z-buffer holds their depths. |
| DepthTest.RenderUntested | tests/integration_tests.rs:94-104 | The loop without a z-buffer whitens exactly the covered pixels. |
| DepthTest.ZBufferDoesNotAffectOnePrimitive | tests/integration_tests.rs:70-111 | With one triangle the z-buffered frame equals the unbuffered one. When some pixel is covered, that frame differs from an all-black frame. |
| Render.MakeBuffer | src/main.rs:20-27 | Every byte is the given colour, and the length is the capacity, which is at least the size asked for. |
| Render.PixelCenter | src/main.rs:87 | The centre of pixel `(i, j)` is `(i + 0.5, j + 0.5, 0)`; the row index is the x coordinate. |
| Render.Covers | src/main.rs:87-89 | The inside test: all three barycentric weights at the pixel centre are non-negative. It is a predicate without a contract; `RenderTriangle` and `ShadedPixel` state what it decides. |
| Render.Weights | src/main.rs:88-90 | The weights are the barycentric weights at the pixel centre divided by the area. |
| Render.PixelColor | src/main.rs:90-95 | The colour of a covered pixel: the perspective-corrected Gouraud blend times `z = 1 / (sum of w_k / v_k.z)`, cast to bytes. It has no contract of its own; `ShadedPixel` and `RenderTriangle` state where it is written. |
| Render.ShadedPixel | src/main.rs:85-98 | In the finished frame a covered pixel holds its perspective-corrected Gouraud colour, and any other pixel keeps its old value. |
| Render.RenderTriangle | src/main.rs:85-98 | The loop visits every pixel once, in row-major order, and overwrites exactly the covered ones with their colours. |
| Render.RenderScene | src/main.rs:81-103 | The frame is the shaded black frame and the z-buffer is never read. The dump buffer is large enough, so `dump_frame` returns `Some(3 * height * width)`. |
| Ppm.MagicNumber | src/ppm.rs:17-26 | Every magic number is `P` followed by one digit: 1, 2 and 3 for the ASCII bitmap, graymap and pixmap, and 4, 5 and 6 for their binary forms. |
| Ppm.MagicNumberInjective | src/ppm.rs:17-26 | Different variants have different magic numbers. |
| Ppm.FileExtension | src/ppm.rs:28-37 | The extension is `pbm`, `pgm` or `ppm` exactly when the colour type is bitmap, gray or RGB, so the ASCII and binary forms share it. |
| Ppm.MaxPixelValue | src/ppm.rs:49-55 | The value is 1 exactly for bitmaps and 255 exactly for gray and RGB. |
| Ppm.PixelType | src/ppm.rs:77-84 | The colour type is bitmap, gray or RGB exactly when the variant is the ASCII or binary bitmap, graymap or pixmap. |
| Ppm.EncodeWithoutFailures | src/ppm.rs:88-107 | With no failing write and no panic, the output is the magic number, a newline, `"{w} {h}\n{max}\n"` and the body, one write call after another. |
| Ppm.BinaryIsAsciiWithAnotherMagicNumber | src/ppm.rs:77-84 | A binary variant writes the same header and body as its ASCII form; only the magic number differs. |
| Ppm.BodiesIgnoreHeight | src/ppm.rs:117-144 | The bitmap and RGB bodies do not depend on the height. |
| Ppm.BitCellsText | src/ppm.rs:117-128 | A bitmap line is written as `"0 "` for a zero byte and `"1 "` for any other byte. |
| Ppm.BitMapNeverPanics | src/ppm.rs:117-128 | The bitmap body cannot panic when the width is non-zero. |
| Ppm.GrayCellsPanic | src/ppm.rs:129-136 | One gray row panics exactly when it reads past the end of the image. |
| Ppm.GrayRowsPanic | src/ppm.rs:129-136 | The gray body panics exactly when the image holds fewer than `width * height` bytes (and any row is read). |
| Ppm.RgbPixelsPanic | src/ppm.rs:137-144 | An RGB line panics exactly when its length is not a multiple of 3. |
| Ppm.RgbLinesPanic | src/ppm.rs:137-144 | The RGB body panics exactly when the image length is not a multiple of 3. |
| Ppm.WriteImagePanics | src/ppm.rs:109-148 | `write_image` panics on an empty image. It also panics for a zero-width bitmap or RGB image, a gray image shorter than `width * height`, and an RGB image whose length is not a multiple of 3. It panics in no other case. |
| Ppm.NetPBMEncoder.WriteMagicNumber | src/ppm.rs:100-102 | Writes the magic number, and the writer's new state is what running that write call gives. |
| Ppm.NetPBMEncoder.WriteHeader | src/ppm.rs:104-107 | Writes the dimensions and the maximum value, and the writer's new state is what running those calls gives. |
| Ppm.NetPBMEncoder.WriteImage | src/ppm.rs:109-148 | The outcome and the writer's new state are those of running the body's write calls: the first failed checked write aborts, and a panic stops at once. |
| Ppm.NetPBMEncoder.WriteBitMap | src/ppm.rs:117-128 | The bitmap body's loops reach the outcome and state that running its write calls gives. |
| Ppm.NetPBMEncoder.WriteGray | src/ppm.rs:129-136 | The gray body's loops reach the outcome and state that running its write calls gives. |
| Ppm.NetPBMEncoder.WriteRgb | src/ppm.rs:137-144 | The RGB body's loops reach the outcome and state that running its write calls gives; the result of each line's newline is discarded. |
| Ppm.NetPBMEncoder.Encode | src/ppm.rs:71-98 | The outcome and the writer's new state are those of running the magic number, header and body calls in order. |
| Vec2D.New | src/vector/vec2d.rs:6-22 | The components are stored in the order given. |
| Vec2D.Norm | src/vector/vec2d.rs:26-28 | The norm, a sum of squares, is never negative. |
| Vec2D.DotProperties | src/vector/vec2d.rs:26-32 | The dot product is symmetric, and `v.dot_product(v) == v.norm()`. |
| Vec2D.Dot | src/vector/vec2d.rs:30-32 | The sum of the componentwise products; `DotProperties` states its symmetry and its agreement with the norm. |
| Vec2D.Add | src/vector/vec2d.rs:47-80 | The componentwise sum, the one body of every owned and borrowed `Add` form; `AddSubInverse` and the addition table state its properties. |
| Vec2D.Sub | src/vector/vec2d.rs:82-113 | The componentwise difference, the one body of every `Sub` form; `AddSubInverse` and the subtraction table state its properties. |
| Vec2D.Mul | src/vector/vec2d.rs:115-135 | Every component times the scalar; `MulDivInverse` states that division undoes it. |
| Vec2D.Div | src/vector/vec2d.rs:137-157 | Every component divided by a non-zero scalar; `MulDivInverse` states that multiplication undoes it. |
| Vec2D.AddSubInverse | src/vector/vec2d.rs:47-113 | Addition commutes, and subtraction undoes addition both ways round. |
| Vec2D.MulDivInverse | src/vector/vec2d.rs:115-157 | Division by a non-zero scalar undoes multiplication by it, and the other way round. |
| Vec2D.AdditionTable | src/vector/vec2d.rs:248-273 | The sums of the addition test cases. |
| Vec2D.SubtractionTable | src/vector/vec2d.rs:275-300 | The differences of the subtraction test cases. |
| Vec2D.AddAssign | src/vector/vec2d.rs:159-184 | After `a += b`, `a` is the old `a` plus `b`. |
| Vec2D.SubAssign | src/vector/vec2d.rs:186-205 | After `a -= b`, `a` is the old `a` minus `b`. |
| Vec2D.MulAssign | src/vector/vec2d.rs:207-219 | After `a *= s`, `a` is the old `a` times `s`. |
| Vec2D.DivAssign | src/vector/vec2d.rs:221-233 | After `a /= s`, `a` is the old `a` divided by `s`. |
| Vec3D.New | src/vector/vec3d.rs:4-19 | The components are stored in the order given. |
| Vec3D.Dim | src/vector/vec3d.rs:22-24 | The dimension is 3. |
| Vec3D.Norm | src/vector/vec3d.rs:28-32 | The norm, a sum of squares, is never negative. |
| Vec3D.DotProperties | src/vector/vec3d.rs:28-38 | The dot product is symmetric, and `v.dot_product(v) == v.norm()`. |
| Vec3D.Dot | src/vector/vec3d.rs:34-38 | The sum of the componentwise products; `DotProperties` states its symmetry and its agreement with the norm. |
| Vec3D.Add | src/vector/vec3d.rs:53-101 | The componentwise sum, the one body of every owned and borrowed `Add` form; `AddSubInverse` and the addition table state its properties. |
| Vec3D.Sub | src/vector/vec3d.rs:103-137 | The componentwise difference, the one body of every `Sub` form; `AddSubInverse` and the subtraction table state its properties. |
| Vec3D.Mul | src/vector/vec3d.rs:139-161 | Every component times the scalar; `MulDivInverse` states that division undoes it. |
| Vec3D.Div | src/vector/vec3d.rs:163-185 | Every component divided by a non-zero scalar; `MulDivInverse` states that multiplication undoes it. |
| Vec3D.Neg | src/vector/vec3d.rs:273-295 | Every component negated; `NegProperties` states that it is an involution and agrees with subtraction. |
| Vec3D.AddSubInverse | src/vector/vec3d.rs:53-137 | Addition commutes, and subtraction undoes addition both ways round. |
| Vec3D.MulDivInverse | src/vector/vec3d.rs:139-185 | Division by a non-zero scalar undoes multiplication by it, and the other way round. |
| Vec3D.NegProperties | src/vector/vec3d.rs:273-295 | Negating twice is the identity, `a - b == a + (-b)`, and `a + (-a)` is zero. |
| Vec3D.AdditionTable | src/vector/vec3d.rs:310-335 | The sums of the addition test cases. |
| Vec3D.SubtractionTable | src/vector/vec3d.rs:337-362 | The differences of the subtraction test cases. |
| Vec3D.AddAssign | src/vector/vec3d.rs:187-215 | After `a += b`, `a` is the old `a` plus `b`. |
| Vec3D.SubAssign | src/vector/vec3d.rs:217-239 | After `a -= b`, `a` is the old `a` minus `b`. |
| Vec3D.MulAssign | src/vector/vec3d.rs:241-255 | After `a *= s`, `a` is the old `a` times `s`. |
| Vec3D.DivAssign | src/vector/vec3d.rs:257-271 | After `a /= s`, `a` is the old `a` divided by `s`. |
| Vec4D.New | src/vector/vec4d.rs:4-19 | The components are stored in the order given. |
| Vec4D.Dim | src/vector/vec4d.rs:22-24 | The dimension is 4. |
| Vec4D.Norm | src/vector/vec4d.rs:28-33 | The sum of the squares of the four components; it has no contract of its own, and `NormNonNegative` and `DotProperties` state its properties. |
| Vec4D.NormNonNegative | src/vector/vec4d.rs:28-33 | The norm, a sum of squares, is never negative. |
| Vec4D.DotProperties | src/vector/vec4d.rs:28-40 | The dot product is symmetric, and `v.dot_product(v) == v.norm()`. |
| Vec4D.Normalize | src/vector/vec4d.rs:43-50 | Needs a non-zero norm and divides every component by it; it has no contract of its own, and the next two lemmas state what it does. |
| Vec4D.NormalizeTimesNorm | src/vector/vec4d.rs:43-50 | Scaling the normalized vector by the norm gives back the vector. |
| Vec4D.NormalizeIsNotUnit | src/vector/vec4d.rs:43-50 | `normalize` divides by the squared length: `(2, 0, 0, 0)` becomes `(0.5, 0, 0, 0)`, whose norm is 0.25, not 1. |
| Vec4D.Dot | src/vector/vec4d.rs:35-40 | The sum of the componentwise products; `DotProperties` states its symmetry and its agreement with the norm. |
| Vec4D.Add | src/vector/vec4d.rs:64-116 | The componentwise sum, the one body of every owned and borrowed `Add` form; `AddSubInverse` and the addition table state its properties. |
| Vec4D.Sub | src/vector/vec4d.rs:118-155 | The componentwise difference, the one body of every `Sub` form; `AddSubInverse` and the subtraction table state its properties. |
| Vec4D.Mul | src/vector/vec4d.rs:157-181 | Every component times the scalar; `MulDivInverse` states that division undoes it. |
| Vec4D.Div | src/vector/vec4d.rs:183-207 | Every component divided by a non-zero scalar; `MulDivInverse` states that multiplication undoes it. |
| Vec4D.Neg | src/vector/vec4d.rs:305-329 | Every component negated; `NegProperties` states that it is an involution and agrees with subtraction. |
| Vec4D.AddSubInverse | src/vector/vec4d.rs:64-155 | Addition commutes, and subtraction undoes addition both ways round. |
| Vec4D.MulDivInverse | src/vector/vec4d.rs:157-207 | Division by a non-zero scalar undoes multiplication by it, and the other way round. |
| Vec4D.NegProperties | src/vector/vec4d.rs:305-329 | Negating twice is the identity, `a - b == a + (-b)`, and `a + (-a)` is zero. |
| Vec4D.Index | src/vector/vec4d.rs:331-345 | Index `i < 4` gives the `i`-th component; larger indices are excluded, as the source panics there. |
| Vec4D.IndexOfNew | src/vector/vec4d.rs:15-19 | Indexing a new vector gives back its constructor arguments in order. |
| Vec4D.AdditionTable | src/vector/vec4d.rs:360-385 | The sums of the addition test cases. |
| Vec4D.SubtractionTable | src/vector/vec4d.rs:387-412 | The differences of the subtraction test cases. |
| Vec4D.AddAssign | src/vector/vec4d.rs:209-240 | After `a += b`, `a` is the old `a` plus `b`. |
| Vec4D.SubAssign | src/vector/vec4d.rs:242-267 | After `a -= b`, `a` is the old `a` minus `b`. |
| Vec4D.MulAssign | src/vector/vec4d.rs:269-285 | After `a *= s`, `a` is the old `a` times `s`. |
| Vec4D.DivAssign | src/vector/vec4d.rs:287-303 | After `a /= s`, `a` is the old `a` divided by `s`. |
| Matrix44.New | src/vector/matrix44.rs:17-32 | The sixteen arguments become the four rows, in row-major order. |
| Matrix44.Shape | src/vector/matrix44.rs:35-37 | The shape is `(4, 4)`. |
| Matrix44.Rows | src/vector/matrix44.rs:40-42 | There are 4 rows. |
| Matrix44.Columns | src/vector/matrix44.rs:45-47 | There are 4 columns. |
| Matrix44.MatMul | src/vector/matrix44.rs:132-181 | Entry `(i, j)` of the product is the sum over `k` of `a[i][k] * b[k][j]`. |
| Matrix44.Multiply | src/vector/matrix44.rs:49-62 | The nested loop overwrites every cell of `scratch` with the product, whatever `scratch` held before. |
| Matrix44.Mul | src/vector/matrix44.rs:132-181 | Every `Mul` form returns the product. |
| Matrix44.MulAssign | src/vector/matrix44.rs:183-196 | After `*=`, the matrix is the old matrix times the other. |
| Matrix44.Transposed | src/vector/matrix44.rs:64-71 | Entry `(i, j)` of the transpose is entry `(j, i)` of the matrix. |
| Matrix44.TransposedTwice | src/vector/matrix44.rs:64-71 | Transposing twice gives back the matrix. |
| Matrix44.TransposedProduct | src/vector/matrix44.rs:64-71 | The transpose of a product is the product of the transposes in the other order. |
| Matrix44.Transpose | src/vector/matrix44.rs:73-82 | After `transpose()`, the matrix is the old matrix's `transposed()`. |
| Matrix44.VecMultiply | src/vector/matrix44.rs:88-96 | `dest[j]` is the sum over `i < 3` of `src[i] * m[i][j]`. |
| Matrix44.LinearIgnoresRowAndColumnThree | src/vector/matrix44.rs:88-96 | Changing row 3 or column 3 of the matrix does not change `vec_multiply`. |
| Matrix44.VecDispMultiply | src/vector/matrix44.rs:98-107 | Needs a non-zero `w`. Then x, y and z are the linear part plus the column-3 offsets, divided by `w`. |
| Matrix44.RowThreeTranslationIsIgnored | src/vector/matrix44.rs:98-107 | A translation stored in row 3 leaves `vec_disp_multiply` unchanged, because the offsets come from column 3. |
| Matrix44.Identity | src/vector/matrix44.rs:198-235 | The identity has ones exactly on the diagonal. |
| Matrix44.Zero | src/vector/matrix44.rs:198-235 | Every entry of the zero matrix is 0. |
| Matrix44.IdentityIsUnit | src/vector/matrix44.rs:198-235 | The identity is a left and right unit of the product. |
| Matrix44.ZeroAnnihilates | src/vector/matrix44.rs:198-235 | The zero matrix times any matrix is zero, on either side. |
| Matrix44.IdentityFixesVectors | src/vector/matrix44.rs:88-107 | `vec_multiply` and `vec_disp_multiply` by the identity give back the vector. |

## Left out

- `camera_to_world_matrix`, `world_to_camera_matrix` and `rotation_matrix` (src/raster.rs:14-61, 133-166) are not modelled. They divide by a Euclidean length, which needs a square root, and call nalgebra's matrix inverse.
- The `length()` methods of the vector types are not modelled, because they use a square root.
- `Matrix4x4::inverse` and `invert` are not modelled. They are half-translated C++ that does not compile: they use the undeclared `s`, `t` and `pivotsize` and C++ declarations such as `T pivot_size = …`, so they have no Rust behaviour to model.
- `Vec2D.Norm`, `Vec3D.Norm`, `Vec4D.NormNonNegative`: only non-negativity is stated, not that the norm is zero exactly for the zero vector.
- IEEE-754 behaviour is not modelled: NaN, infinite arithmetic, rounding error and the NaN rules of `Float::min`/`max`. Divisions by zero are preconditions instead. The checkerboard test's inputs all have depth 0, so that test depends on IEEE `1/0`; the model proves the agreement for every non-zero depth instead.
- The vector types are generic over the element type. The model uses `real` only, so integer overflow and truncating integer division for integer element types are not modelled.
- The `TextureMap` trait becomes a tagged union of the three shaders with a dispatching `Apply`. Each shader's own `apply` is a plain function.
- The `Fn`/`FnMut`/`FnOnce` implementations in src/shader/texture.rs:9-30 only forward to `apply`, so they are not modelled.
- File and OS I/O is not modelled: creating `triangle.ppm` and calling the encoder on it (src/main.rs:105-108).
- The real `io::Write` is replaced by `Ppm.Writer`. Each `write!` is one atomic call that either appends its text or fails; the calls that fail are a parameter. Partial writes are not modelled.
- The allocator's choice of capacity in `make_buffer` is a parameter.
- `ZBuffer` has no `Index` implementation, although the integration test indexes it. The model adds `Get` and `Set` for that access.
- `vec_multiply` and `vec_disp_multiply` index a `Vec3d`, which has no `Index` implementation. The model reads the components by name.
- `Matrix4x4`'s `Index`/`IndexMut` (src/vector/matrix44.rs:110-130) are direct access to the stored rows.
- The integration test's world-to-raster chain depends on `world_to_camera_matrix`, which is left out. So the raster-space depths and the world-space triangle are parameters of the depth-tested render.
- The render loop in src/main.rs starts from the world-space set-up at lines 30-69. That set-up uses `world_to_camera_matrix`, so the model starts from the raster-space triangle and its colours.
- src/color.rs, src/color/color.rs, src/vertex.rs, src/shading.rs, src/vector.rs, src/vec3d.rs.rs and src/vector/vector.rs are not part of this model. They repeat modelled code, do not compile, or wrap an external crate.
- src/mesh.rs, the shape builders and src/lib.rs are not part of this model.
- Concurrency: the program has none.
