# Fractal engine, modelled in Dafny

This project models the generation engine of a small set of OpenGL fractal
viewers written in Python, and proves properties of that model. There are
five generators:

- **Escape-time field** (`a.py`): for each pixel of an 800 x 800 grid over
  [-2, 1] x [-1.5, 1.5], iterate z <- z^2 + c from z = 0 until |z| > 2, or
  until 256 iterations have run. The count for c = 0 is the cap, 256; for
  |c| > 2 it is 1 (0 when the cap is 0). Map the count n to the grey level
  255 - floor(255 n / 256). Module `Mandelbrot`.
- **Koch snowflake** (`test.py`): split each side of a triangle into four
  segments, recursively, with an equilateral peak on the middle third. A
  timer raises the order from 0 to 4. Module `Koch`.
- **Fractal tree** (`c.py`): a trunk, then two sub-branches at +-pi/6 with
  length x0.67, ten levels deep. Module `Tree`. It uses the shared branch
  rule in module `Branching`.
- **Twin Christmas trees** (`e.py`): the same rule with a direction sign and
  length x0.7, eight levels deep, grown from two mirrored starts. Each
  branch is queued in `drawing_steps`. Each display callback pops one step
  and draws it. Module `TwinTrees`.
- **Chaos game** (`d.py`): from a random start in [-0.8, 0.8]^2, move 5000
  times halfway towards a randomly chosen vertex of a triangle, plotting
  each point. The start is drawn from the whole square (d.py:29), although
  the comment at d.py:28 speaks of a point inside the triangle; the model
  follows d.py:29. `d.py` plots only this point cloud: no triangle is
  subdivided. Module `Chaos`.

Shared vocabulary lives in module `Geometry`:

- points and segments;
- vector arithmetic;
- reflection through x = 0;
- powers;
- polylines, meaning chained segments from one point to another.

The models work as follows:

- Drawing a line or a point is modelled as appending to a returned
  sequence, in drawing order.
- For the trees (`Branching`, `Tree`, `TwinTrees`), cos and sin are
  supplied by the caller, as the fields of a `Trig` value. Only the
  identities a property needs are assumed, and they are assumed as
  preconditions of the lemma that needs them.
- For the Koch curve, cos(pi/3) is the constant 1/2 (`Koch.Cos60`) and
  sin(pi/3) is a parameter of `Koch.Turn60`. The subdivision
  `Koch.KochCurve` takes the rotation of the direction vector as any
  function `turn: Point -> Point`; the length lemmas require it to be an
  equilateral turn, which test.py's rotation is when sin60^2 = 3/4.
- Random draws become inputs.
- Code that updates state step by step is imperative Dafny:
  - the escape-count loop;
  - the pixel-grid fill into an `array3<byte>`;
  - the Koch order counter (class `Koch.Animation`);
  - the step queue (class `TwinTrees.StepPlayer`);
  - the chaos-game loop.
- Code that is pure recursion is written as functions:
  - `koch_snowflake`;
  - the `c.py` `draw_branch`.
- Each method's ensures gives its result or its new state. The loops of
  `EscapeCount`, `GenerateField` and `DrawSierpinski`, and the recursive
  method `TwinTrees.DrawBranch`, are proved equal to a specification
  function (`EscapeTime`, `PixelValue`, `Walk`, `Grow`), whose properties
  are proved as lemmas. The `Animate`, `Display`, `Run` and `Play` contracts state the
  old and new state directly.
- In e.py the queue `drawing_steps` is a module-level list that
  `draw_branch` appends to. The model keeps it in the field
  `StepPlayer.drawingSteps`. `TwinTrees.DrawBranch` takes the queue as a
  value and returns it extended, and `StepPlayer.DrawTwinTrees` stores the
  result back into the field (see "Left out").

## Model

| member | source | states |
|---|---|---|
| Mandelbrot.Step | a.py:28 | one iteration z * z + c, written on the parts: real part re^2 - im^2 + c.re, imaginary part 2 re im + c.im |
| Mandelbrot.Orbit | a.py:24-28 | the k-th iterate z_k of the loop: z_0 = 0 and z_{k+1} = z_k^2 + c |
| Mandelbrot.EscapeTime | a.py:25-29 | the value mandelbrot(x, y) returns for c = x + yi under cap max_iter: the first index below the cap whose iterate has \|z\| > 2, or the cap. EscapeTimeIsFirstEscape characterises it |
| Mandelbrot.EscapeSearchFinds | a.py:25-29 | if no iterate before index i has escaped, the search from i returns an index n <= cap. Every iterate before n has \|z\| <= 2, and z_n has \|z\| > 2 unless n is the cap |
| Mandelbrot.EscapeTimeIsFirstEscape | a.py:25-29 | n is the escape count if and only if n <= max_iter, no iterate z_0 .. z_{n-1} has escaped, and z_n has escaped whenever n < max_iter |
| Mandelbrot.EscapeTimeBounded | a.py:25-29 | the escape count never exceeds max_iter |
| Mandelbrot.OrbitOfZero | a.py:23-28 | for c = 0 every iterate z_k is 0 |
| Mandelbrot.OriginNeverEscapes | a.py:23-29 | for c = 0 the count is exactly max_iter |
| Mandelbrot.OrbitOne | a.py:24-28 | the first iterate z_1 = 0^2 + c equals c |
| Mandelbrot.FarPointEscapesAtOne | a.py:24-28 | for \|c\| > 2 the count is exactly 1: z_0 = 0 has not escaped, and z_1 = c has. It is 0 when the cap is 0 |
| Mandelbrot.EscapeTimeStableUnderLargerCap | a.py:25-29 | a point that escapes below cap m1 gets the same count under any larger cap |
| Mandelbrot.EscapeCount | a.py:16-29 | the early-return loop yields the reference escape count, which is the first escaping index below the cap, or the cap |
| Mandelbrot.Intensity | a.py:47 | the grey level is in [0, 255] for n <= max_iter. It is 255 at n = 0 and 0 at n = max_iter |
| Mandelbrot.IntensityNonIncreasing | a.py:47 | a larger count never gives a lighter grey |
| Mandelbrot.Linspace | a.py:37-38 | the first sample is lo and the last is hi, and every sample of an ascending range lies in [lo, hi] |
| Mandelbrot.PixelPoint | a.py:37-46 | the point c sampled by pixel (i, j): the j-th of `width` evenly spaced values of [xmin, xmax] as real part, the i-th of `height` evenly spaced values of [ymin, ymax] as imaginary part |
| Mandelbrot.PixelValue | a.py:44-47 | the grey level 255 - floor(255 n / max_iter) of the escape count n of that pixel's point, as a byte |
| Mandelbrot.GenerateField | a.py:31-50 | a fresh height x width x 3 grid. Cell (i, j) holds on all three channels the grey level of the escape count of (x_j, y_i) |
| Mandelbrot.ConfiguredViewCorners | a.py:13-14 | pixel (0, 0) samples -2 - 1.5i and pixel (799, 799) samples 1 + 1.5i, the corners of the configured view |
| Koch.Turn60 | test.py:44-46 | the rotation of test.py: (dx, dy) goes to (cos60 dx - sin60 dy, sin60 dx + cos60 dy), with cos60 = 1/2 and sin60 given |
| Koch.Motif | test.py:39-53 | the four sub-segments (p1, p3), (p3, p5), (p5, p4), (p4, p2) of one subdivision step, in drawing order |
| Koch.KochCurve | test.py:23-53 | koch_snowflake(order, p1, p2) as the segments it draws, in drawing order: the segment p1-p2 at order 0, otherwise the curves of order - 1 along the four motif segments, concatenated |
| Koch.DrawSnowflake | test.py:55-73 | draw_snowflake as the segments it draws: the curves of the given order along (-0.5, -0.3) -> (0.5, -0.3), (0.5, -0.3) -> (0, 0.6) and (0, 0.6) -> (-0.5, -0.3), in that order |
| Koch.Trisect | test.py:39-40 | p3 lies a third of the way from p1 to p2 and p4 two thirds of the way, so p3-p4 and p4-p2 are equal vectors |
| Koch.Turn60IsEquilateral | test.py:43-46 | with cos = 1/2 and sin^2 = 3/4 test.py's rotation keeps lengths, and a vector, its turn and their difference have equal length |
| Koch.MotifShape | test.py:39-53 | the four sub-segments form a polyline p1 -> p3 -> p5 -> p4 -> p2, with p5 - p3 the turned third of p2 - p1 |
| Koch.MotifLengths | test.py:39-53 | under a 60-degree rotation each of the four sub-segments is a third of the parent in length |
| Koch.KochCount | test.py:23-53 | order n emits exactly 4^n segments for one side |
| Koch.KochPolyline | test.py:23-53 | the segments of one side form a connected polyline from p1 to p2 |
| Koch.KochSegmentLength | test.py:23-53 | every segment of order n is 3^-n times the side in length (9^-n in squared length) |
| Koch.TriangleClosed | test.py:67-70 | three subdivided sides a -> b -> c -> a give 3 * 4^n segments in one closed loop, with the second and third sides starting at b and c |
| Koch.SnowflakeClosed | test.py:55-73 | the snowflake of order n has 3 * 4^n segments forming a closed loop through (-0.5, -0.3), (0.5, -0.3) and (0, 0.6) |
| Koch.Animation.constructor | test.py:11-12 | the animation starts at order 0, within the bound max_order = 4 |
| Koch.Animation.Frame | test.py:55-73 | the frame for the current order has 3 * 4^order segments forming a closed loop |
| Koch.Animation.Animate | test.py:75-85 | below max_order a tick raises the order by one and asks for a redraw. At max_order it changes nothing. The order never exceeds max_order |
| Branching.Grow | c.py:17-42 | draw_branch of c.py:17-42 and e.py:24-47 as the segments it emits, in order: nothing at depth 0, otherwise the branch from o to its end, then the subtree turned by +delta, then the subtree turned by -delta, both one level shallower with the length scaled by the ratio |
| Branching.ExtendMirrors | e.py:38-39 | if cos(pi - a) = -cos a and sin(pi - a) = sin a, the polar step from a reflected point at the supplementary angle is the reflection of the original step |
| Branching.GrowCount | c.py:17-42 | depth d emits exactly 2^d - 1 branches |
| Branching.GrowPreOrder | c.py:40-42 | the first branch comes first, then exactly the 2^(d-1) - 1 branches of the +delta subtree, then the -delta subtree. Both subtrees are rooted at the branch end with the length scaled by the ratio |
| Branching.GrowChildren | c.py:30-42 | for depth >= 2 the two children of the first branch start at its end, turned by +delta and -delta, at positions 1 and 2^(d-1) |
| Branching.GrowConnected | c.py:26-42 | the first branch starts at the origin point, and every later branch starts where an earlier branch ends |
| Branching.GrowMirror | e.py:24-47 | growing from the reflected start at the supplementary angle with the opposite turn gives the reflected tree, branch by branch |
| Tree.DrawBranch | c.py:17-42 | 2^depth - 1 segments. The result is empty exactly at depth 0, and otherwise the first segment runs from (x, y) to (x + length cos angle, y + length sin angle) |
| Tree.DrawTree | c.py:44-52 | draw_tree as the segments it draws: draw_branch from (0, -0.8) with length 0.5, angle pi/2 and depth 10 |
| Tree.TreeCount | c.py:44-52 | the tree has 2^10 - 1 = 1023 branches |
| Tree.TreeTrunk | c.py:51-52 | the trunk runs vertically from (0, -0.8) to (0, -0.3) |
| TwinTrees.DrawBranch | e.py:24-47 | the queue afterwards is the queue before, followed by the tree's branches in pre-order |
| TwinTrees.LeftTree | e.py:56 | the steps queued by the left call: draw_branch from (-0.25, -0.4) with length 0.2, angle pi/2, depth 8 and direction -1 |
| TwinTrees.RightTree | e.py:59 | the steps queued by the right call: draw_branch from (0.25, -0.4) with length 0.2, angle pi/2, depth 8 and direction +1 |
| TwinTrees.TwinCount | e.py:49-59 | each tree queues 2^8 - 1 = 255 steps |
| TwinTrees.TwinMirror | e.py:49-59 | the k-th step of the right tree is the reflection through x = 0 of the k-th step of the left tree |
| TwinTrees.StepPlayer.constructor | e.py:22 | the queue starts empty |
| TwinTrees.StepPlayer.DrawTwinTrees | e.py:49-61 | the queue gains the left tree's steps, then the right tree's, after what it held |
| TwinTrees.StepPlayer.Display | e.py:63-82 | a non-empty queue loses its head, which is drawn, and keeps the rest in order. An empty queue stays empty and nothing is drawn. A redisplay is requested exactly when steps remain |
| TwinTrees.StepPlayer.Run | e.py:63-82 | repeated callbacks draw every queued step exactly once, in queue order, and leave the queue empty |
| TwinTrees.StepPlayer.Play | e.py:63-82 | t callbacks draw the first t steps and leave the rest. Beyond the queue length they draw everything and leave the queue empty |
| Chaos.Midpoint | d.py:38-39 | the new point minus the chosen vertex is half the old point minus that vertex, so the squared distance to the vertex is quartered |
| Chaos.Walk | d.py:33-42 | exactly one plotted point per vertex choice |
| Chaos.WalkFirst | d.py:29-42 | the start is not plotted: the first plotted point is already one halving step from it |
| Chaos.WalkStep | d.py:33-42 | each plotted point after the first is the midpoint of the previous plotted point and the vertex chosen for that step |
| Chaos.VerticesInBox | d.py:13-17 | the three vertices lie in [-0.8, 0.8]^2 |
| Chaos.MidpointInBox | d.py:38-39 | the midpoint of two points of the square lies in the square |
| Chaos.WalkInBox | d.py:29-42 | from a start in the square, every plotted point stays in the square |
| Chaos.DrawSierpinski | d.py:22-45 | exactly 5000 points are plotted. They are the walk of the given choices from the given start, and all lie in the square |

## Left out

- `main.py`: a menu and launcher of the other scripts, with no generation logic.
- OpenGL and GLUT calls are not modelled. This covers window setup, `reshape`, `glClear`, `glFlush`, `glDrawPixels` and callback registration. Drawn lines and points are the returned sequences. A `glutPostRedisplay` request is modelled as a boolean result: `redraw` of `Koch.Animation.Animate` and `redisplay` of `TwinTrees.StepPlayer.Display`.
- Floating point is not modelled. All arithmetic is on exact reals, and nothing is claimed about the rounding of `np.linspace`, `int()` or `abs()`.
- `math.cos` and `math.sin` are caller-supplied functions, because the verifier has no trigonometry. `math.pi` is the constant `Branching.Pi`, math.pi as printed (3.141592653589793). It is used as the supplementary angle of the mirror lemmas and, through Pi / 2, as the right angle of the trunks. Tree.TreeTrunk assumes cos(Pi/2) = 0 and sin(Pi/2) = 1, an idealisation: the floating-point math.cos(math.pi / 2) is about 6.1e-17, not 0.
- `random.uniform` and `random.choice` are not modelled. The start point and the vertex indices are inputs, and their distribution is not modelled.
- `time.sleep(1)` at the end of the twin-tree animation is not modelled, and neither is the 1000 ms animation timer.
- Mandelbrot.Intensity: requires max_iter > 0. With max_iter = 0, a.py:47 divides by zero.
- Mandelbrot.GenerateField: the pixel values are bytes, and the grey level is always in [0, 255]. The uint8 wrap of NumPy is therefore never exercised and is not modelled.
- Koch: sin(pi/3) is a parameter, and the length lemmas assume sin60^2 = 3/4. cos(pi/3) is exactly 1/2.
- Koch.SnowflakeClosed: it states counts and closure only. The starting triangle (-0.5, -0.3), (0.5, -0.3), (0, 0.6) is not equilateral, so no claim is made that the three sides have a common length.
- Koch.KochCurve, Branching.Grow and TwinTrees.DrawBranch: order and depth are `nat`. In test.py:30, c.py:26 and e.py:34 a negative order or depth never reaches the `== 0` base case and recurses until Python raises RecursionError; no call site passes one, so that case is not modelled.
- Tree: the module-level `angle = pi/4` (c.py:13) is shadowed by the `angle` parameter of `draw_branch` and never read.
- Branching.GrowMirror, Branching.GrowConnected and Branching.GrowPreOrder: these are stated for any start, length, angle and depth, not unfolded on the concrete trees.
- TwinTrees.DrawBranch: it takes the queue as a value and returns the extended queue, with the end-point rule passed as a function. StepPlayer.DrawTwinTrees stores the result back into the queue field. In-place appends to the shared list are therefore not modelled.
- Mandelbrot.Step: complex multiplication is written out on real and imaginary parts rather than through a general complex product.
