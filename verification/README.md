# Verified models of FluidNC components

A Dafny 4.11 project that models the most intricate parts of the FluidNC firmware and proves
what they are meant to guarantee. `dafny verify dfyconfig.toml` checks everything.

- **O-word flow control** (`Flowcontrol`, `FlowPrograms`, `FlowRefinement`, `FlowMeaning`,
  `FlowComments`, `FlowContinue`, `FlowLaws`). IF/ELSEIF/ELSE, REPEAT, DO..WHILE and WHILE run on a line-at-a-time stack
  machine that loops by seeking its file. Run on the lines of any well-scoped structured program,
  the machine executes exactly the plain lines the program means as coded, in the same order, on
  the same store, reading the same number of lines, so the two also agree on runs that never end.
  Against the usual meaning of the program, a run completes exactly when the usual one does and
  meets none of three things on its way: a WHILE whose first test is zero (the rest of the file is
  skipped), a WHILE directly in a DO (it fails at its ENDWHILE), and a skipped plain line whose
  first word cannot be read (the job stops). Comments on o-word lines are given their exact effect.
- **Expressions** (`Expression`, `NgcReader`, `FloatLiteral`, `ExpressionText`,
  `ExpressionParse`). The seven-slot shift-reduce loop
  computes the value, or the first error, of the unique tree grouped by the code's precedence
  table, also when the text breaks off; its stack never exceeds five operators. The mutually
  recursive reader around it always terminates, every success moves forward within the line, and
  exactly the texts of an independently given syntax of expressions evaluate, to what they mean.
- **Arcs** (`Arc`, `ArcTrace`, `ArcAccuracy`). Radius-format centres, angular travel, and the
  segment loop with its approximate rotations: exact scaling law, radius bound, direction and
  distance from the exact point, even spacing, last point.
- **I2S step engine** (`I2sEngine`). The FIFO receives the ideal waveform wherever interrupt
  boundaries fall; a step lasts as long as requested, and at every admitted rate its delay covers
  its pulse twice.
- **JSON encoder** (`Json`, `JsonEncoder`). What the encoder writes decodes to the tree it was
  driven over, in a string and in encapsulated pieces.
- **DNS responder** (`Dns`), **HTTP ranges** (`HttpRange`), **SD mount counting** (`FluidPaths`),
  **job nesting** (`JobStack`), **line assembly** (`ChannelInput`), **work coordinates**
  (`WorkOffsets`).

Each stateful component is a class or an array method proved against a function of its inputs or
of its old state; the lemmas are about those functions. Arithmetic is over unbounded integers
with wrap-around, saturation and unsigned subtraction written out where the code has them, and
over `real` where the code uses `float`. What lies outside a component (the expression evaluator
behind flow control, binary operators, parameter tables, trigonometry, the pulse function, the
SD driver, file opening) is a parameter, constrained only by what is written in its contract.

Findings where the code does not do what a reader would expect, each with its exact condition:

- `FlowMeaning.FileRunsIdealProgram`, `FlowMeaning.TrippedNeverCompletes`: the three trips above.
- `FlowPrograms.BreakAlwaysFails`: every BREAK that is not skipped fails.
- `FlowContinue.ContinueInRepeat`, `ContinueInWhile`, `ContinueInDo`: CONTINUE is not a jump to
  the end of its body on the last pass of a REPEAT or WHILE, which it drops without leaving the
  body, nor in a DO whose condition does not hold; `AfterDroppedLoop` says when the dropped loop's
  closing line then fails.
- `FlowComments.CommentMatters`, `FlowComments.CommentsMatter`: a comment on an ELSEIF, ELSE,
  ENDIF or ENDREPEAT line, or a line number in front of it, hides it when it would end the
  skipping.
- `HttpRange.SaturationIsHarmless`: a reversed range beyond SIZE_MAX is called unsatisfiable
  instead of being ignored.
- `FluidPaths.HistoryKeepsCount`: the mount count is wrong at some point of a history exactly when
  a construction in it fails through an error_code; `FailedConstructionUnmounts` and `FailedCopyNeverMounts` say
  how the card is then lost under a live path.
- `Arc.RadiusArcAccepts`: ends that agree in the plane but not on another axis reach a division by
  zero.
- `ArcTrace.TraceArc`: the last line takes the feed the kinematics left behind, and the previous
  position of rotary axes is never advanced.
- `Json.QuotedRoundTrip`, `JsonEncoder.ObjectDecodes`: control characters other than the five
  escaped ones make the text no JSON.
- `FloatLiteral.LiteralIsExact`: digits after the eighth are dropped, and the decimal exponent is
  an 8-bit integer.
- `ChannelInput.BackspaceErases`: a backspace after a character too many takes one that was kept.
- `WorkOffsets.ResetMovesByOldOffset`: axis words on a G92.1 block move by the offset it clears.

## Model

| member | source | states |
|---|---|---|
| Flowcontrol.Interpreter.Execute | FluidNC/src/Flowcontrol.cpp:112-374 | the dispatcher in place: stack, file position, status, alarms and skip flag after any o-word in any state are those of the specification `Flow`; any error of a command empties the stack, while a name that is no command is refused with stack and skip flag untouched |
| Flowcontrol.Interpreter.ExecuteIf | FluidNC/src/Flowcontrol.cpp:127-168 | the IF family edits the top entry in place as `Dispatch` says, evaluating a condition only when it can matter |
| Flowcontrol.Interpreter.ElseIfTop | FluidNC/src/Flowcontrol.cpp:134-146 | ELSEIF on its own IF: skip if a branch has run, else test, take or skip |
| Flowcontrol.Interpreter.ExecuteOpen | FluidNC/src/Flowcontrol.cpp:170-246 | DO, WHILE and REPEAT push, seek or pop as `Dispatch` says |
| Flowcontrol.Interpreter.ExecuteClose | FluidNC/src/Flowcontrol.cpp:211-328 | ENDWHILE, ENDREPEAT, BREAK and CONTINUE unwind, seek or pop as `Dispatch` says |
| Flowcontrol.Interpreter.CountDownTop | FluidNC/src/Flowcontrol.cpp:252-256 | another pass exactly when more than one repeat was left |
| Flowcontrol.Interpreter.RetestTop | FluidNC/src/Flowcontrol.cpp:215-224 | a WHILE loop's saved condition is re-evaluated: seek back or pop |
| Flowcontrol.Interpreter.PullTo | FluidNC/src/Flowcontrol.cpp:269-270 | pops to the nearest entry with the label, or to the empty stack |
| Flowcontrol.Interpreter.Init | FluidNC/src/Flowcontrol.cpp:104-108 | empties the stack |
| FlowPrograms.RunInPlace | FluidNC/src/GCode.cpp:303-330 | reading a file line by line ends exactly as the specification `Run` does: while blocks are skipped a plain line is not executed, but the first word is read, and an error in it stops the job |
| FlowPrograms.UnwindIsPrefix | FluidNC/src/Flowcontrol.cpp:269-270 | unwinding leaves a prefix whose top has the label, and is empty exactly when no entry has it |
| FlowPrograms.FlowKeepsDiscipline | FluidNC/src/Flowcontrol.cpp:112-374 | every o-word keeps "only the top entry may skip, none is broken"; the skip flag is true exactly when some live entry skips; an error leaves the file position and an empty stack, except that an unknown name leaves the stack as it was; the stack grows by at most one |
| FlowPrograms.RunKeepsSound | FluidNC/src/Flowcontrol.cpp:83-108 | the same in every state of every run over any lines; a run stopped by a command has an empty stack |
| FlowPrograms.BreakAlwaysFails | FluidNC/src/Flowcontrol.cpp:266-284 | an unskipped BREAK gives a syntax error when its label is on the stack and reads an empty stack's top when it is not |
| FlowLaws.ErrorStops | FluidNC/src/Flowcontrol.cpp:336-340 | in every state of every run that is not skipping, an ERROR whose code evaluates to an error stops the run with that code and an empty stack; an unreadable or zero one does nothing |
| FlowLaws.AlarmGoesOn | FluidNC/src/Flowcontrol.cpp:330-334 | likewise an ALARM appends exactly its alarm and the run goes on; an unreadable one does nothing |
| FlowLaws.OutsideAJob | FluidNC/src/Flowcontrol.cpp:170-358 | outside a job exactly DO, WHILE, ENDWHILE, REPEAT, ENDREPEAT, BREAK, CONTINUE and RETURN fail, skipped or not; the others do what they do inside |
| FlowLaws.StrayWords | FluidNC/src/Flowcontrol.cpp:134-264 | an unskipped ELSEIF, ELSE, ENDIF, ENDWHILE or ENDREPEAT fails when the top entry is not one it continues, and does nothing under another's label |
| FlowLaws.ReturnDoesNothing | FluidNC/src/Flowcontrol.cpp:342-358 | RETURN in a job does nothing |
| FlowLaws.RepeatIsCopies | FluidNC/src/Flowcontrol.cpp:233-264 | the usual meaning of a counted REPEAT is that many copies of its body |
| FlowLaws.IfTaken | FluidNC/src/Flowcontrol.cpp:127-132 | the usual meaning of an IF whose condition is not zero is its branch |
| FlowLaws.IfNotTaken | FluidNC/src/Flowcontrol.cpp:134-168 | that of one whose condition is zero is what its rest would do as an IF of its own, ELSE running when nothing before did |
| FlowLaws.DoEndsAtZero | FluidNC/src/Flowcontrol.cpp:181-197 | the usual meaning of a DO ends where its condition is zero |
| FlowLaws.WhileEndsAtZero | FluidNC/src/Flowcontrol.cpp:198-231 | that of a WHILE too, and it does nothing when it starts there |
| FlowRefinement.SkippedStep | FluidNC/src/Flowcontrol.cpp:112-374 | under a skipping entry no line with another label changes anything, and under a skipping WHILE entry no line at all does; only a plain line whose first word cannot be read and an unknown name fail |
| FlowRefinement.SkippingWhileNeverEnds | FluidNC/src/Flowcontrol.cpp:198-231 | once a WHILE entry skips, all remaining lines of any file are passed over and the entry stays; the job ends with an error exactly when one of them fails so |
| FlowRefinement.HandledChain | FluidNC/src/Flowcontrol.cpp:134-168 | after one branch of an IF has run, the rest of it is passed over and its entry popped |
| FlowRefinement.SimProg | FluidNC/src/Flowcontrol.cpp:112-264 | from any stack that is not skipping, the machine on a program's lines anywhere in a file does what the program means and leaves the stack as it found it |
| FlowRefinement.SimStmt | FluidNC/src/Flowcontrol.cpp:112-264 | the same for one statement |
| FlowRefinement.SimIf | FluidNC/src/Flowcontrol.cpp:127-168 | IF with any ELSEIF/ELSE chain |
| FlowRefinement.SimChain | FluidNC/src/Flowcontrol.cpp:134-168 | the chain after branches that were not taken |
| FlowRefinement.SimRepeat | FluidNC/src/Flowcontrol.cpp:233-264 | REPEAT of any value, zero and fractions included |
| FlowRefinement.SimRepeatLoop | FluidNC/src/Flowcontrol.cpp:248-264 | the seek-back countdown makes the counted passes |
| FlowRefinement.SimDoLoop | FluidNC/src/Flowcontrol.cpp:181-197 | DO..WHILE repeats while its condition holds after the body |
| FlowRefinement.SimWhile | FluidNC/src/Flowcontrol.cpp:181-231 | WHILE as coded: loop, stick on a zero first test, or be swallowed by a DO |
| FlowRefinement.SimWhileInDo | FluidNC/src/Flowcontrol.cpp:189-229 | a WHILE swallowed by a DO runs its body once and fails at ENDWHILE |
| FlowMeaning.FileRunsProgram | FluidNC/src/Flowcontrol.cpp:112-264 | for every well-scoped program, store and line budget, the run of its file has the outcome, trace and store of the program as coded, with an empty stack at the end |
| FlowMeaning.FileRunsIdealProgram | FluidNC/src/Flowcontrol.cpp:112-264 | for every well-scoped program the run of its file completes exactly when the usual meaning does and meets none of the three trips; it then has the usual trace, store and line count |
| FlowMeaning.FileRunsTameProgram | FluidNC/src/Flowcontrol.cpp:112-264 | files of readable plain lines, IF, REPEAT and DO..WHILE always run as structured programs do |
| FlowMeaning.CodedIsIdeal | FluidNC/src/Flowcontrol.cpp:181-231 | for every program: what is coded is the usual meaning when nothing trips it, sticks at a WHILE reached with a zero first test, fails at a skipped line that cannot be read, and does not complete once a WHILE is reached directly in a DO |
| FlowMeaning.TrippedNeverCompletes | FluidNC/src/Flowcontrol.cpp:189-197 | once the usual run of a program reaches a WHILE directly in a DO, or any other trip, no run of its file ever completes, however many lines it may read |
| FlowMeaning.ZeroWhileSwallowsTheFile | FluidNC/src/Flowcontrol.cpp:198-199 | the smallest file tripped by a zero first test: the line after the loop is never executed |
| FlowMeaning.UnreadableLineStopsTheFile | FluidNC/src/GCode.cpp:319-330 | in an IF that fails its test, a line whose first word cannot be read stops the job and leaves the stack skipping |
| FlowContinue.ContinueInRepeat | FluidNC/src/Flowcontrol.cpp:292-299 | from every unskipped stack, CONTINUE in a REPEAT does what reaching its ENDREPEAT would do exactly when more than one pass is left; otherwise it drops the entry where it stands |
| FlowContinue.ContinueInWhile | FluidNC/src/Flowcontrol.cpp:305-316 | CONTINUE in a WHILE does what reaching its ENDWHILE would do exactly when the condition is not found to be zero; otherwise it drops the entry where it stands |
| FlowContinue.ContinueInDo | FluidNC/src/Flowcontrol.cpp:301-303 | CONTINUE in a DO starts the next pass untested, which is what reaching the closing WHILE would do exactly when its condition holds |
| FlowContinue.AfterDroppedLoop | FluidNC/src/Flowcontrol.cpp:211-264 | the closing line of a loop that CONTINUE dropped fails exactly when the entry now on top is of another kind; otherwise, under another label, it does nothing |
| FlowContinue.ContinueFails | FluidNC/src/Flowcontrol.cpp:286-328 | which CONTINUEs fail at once, and how |
| FlowContinue.ContinueFailsAtTheEnd | FluidNC/src/Flowcontrol.cpp:292-299 | a witness file: an outermost REPEAT of any count whose body starts with CONTINUE runs the rest of the body once and fails at ENDREPEAT |
| FlowContinue.NestedContinueIsMissed | FluidNC/src/Flowcontrol.cpp:248-264 | a witness file: inside another REPEAT the same loop runs the rest of its body once and nothing fails |
| FlowComments.CommentMatters | FluidNC/src/GCode.cpp:176-330 | in every state of every run, a comment on an o-word line, or a line number in front of it, changes what it does exactly when blocks are skipped and the line is an ENDIF, ELSE, ELSEIF or ENDREPEAT of the top entry with something to do, or an unknown name |
| FlowComments.CommentsMatter | FluidNC/src/GCode.cpp:176-193 | in any file, comments change nothing in the run, however many lines are read, exactly when none is met that hides such a line |
| FlowComments.CommentedFileRunsProgram | FluidNC/src/GCode.cpp:176-193 | a well-scoped program with comments on its lines runs as without them while none hides such a line; so always when no ELSEIF, ELSE, ENDIF, ENDREPEAT or unknown name carries one |
| FlowComments.CommentedEndIfSwallowsTheFile | FluidNC/src/GCode.cpp:176-193 | a comment on the ENDIF of an IF that fails its test hides it, and no later plain line runs |
| Expression.Precedence | FluidNC/src/Expression.cpp:311-347 | six levels, the closing bracket alone at the lowest |
| Expression.StreamEvaluatesToTree | FluidNC/src/Expression.cpp:690-739 | a closed token stream evaluates to the value, or the first error, of any grouped tree that spells it |
| Expression.BrokenStreamFails | FluidNC/src/Expression.cpp:699-732 | a stream that cannot be read to its end fails with the first error among the operations the tokens before it complete, and otherwise with the reading error |
| Expression.TreeOfSpells | FluidNC/src/Expression.cpp:311-347 | every token sequence is spelled by a tree grouped by the precedence table, every level to the left |
| Expression.GroupedTreeIsUnique | FluidNC/src/Expression.cpp:311-347 | that tree is unique |
| Expression.IncreasingIsShallow | FluidNC/src/Expression.cpp:691-734 | stacked operators of rising precedence are at most five |
| Expression.FinishShift | FluidNC/src/Expression.cpp:715-716 | pushing a tighter operator does not change what the stack and the input amount to |
| Expression.FinishReduce | FluidNC/src/Expression.cpp:718-732 | executing the top operator before a looser one does not change it either, and gives its error if it fails |
| NgcReader.ReadOperation | FluidNC/src/Expression.cpp:394-504 | success moves forward within the line |
| NgcReader.ReadOperationUnary | FluidNC/src/Expression.cpp:515-609 | success moves forward within the line |
| NgcReader.GetParamRef | FluidNC/src/Parameters.cpp:433-486 | terminates; success moves forward within the line |
| NgcReader.ReadNumber | FluidNC/src/Parameters.cpp:550-592 | terminates; success moves forward within the line; every failure is a bad number |
| NgcReader.ReadUnary | FluidNC/src/Expression.cpp:649-681 | terminates; success moves forward within the line |
| NgcReader.ReadAtan | FluidNC/src/Expression.cpp:620-637 | terminates; success moves forward within the line |
| NgcReader.EvalExpression | FluidNC/src/Expression.cpp:690-739 | terminates; success ends after the bracket, within the line |
| NgcReader.Items | FluidNC/src/Expression.cpp:702-713 | the tokens read from any position close, if at all, further on and within the line |
| NgcReader.ExpressionIsTreeValue | FluidNC/src/Expression.cpp:690-739 | every expression on every line has the value or first error of its grouped tree, or, when it cannot be read to its end, the first error that what was read forces |
| ExpressionText.ExprReads | FluidNC/src/Expression.cpp:690-739 | for a syntax of expressions with its own spelling, the text of every expression, in front of anything, evaluates to the value of its tree, or the first error, and is read exactly to its end |
| ExpressionText.OperandReads | FluidNC/src/Parameters.cpp:550-592 | the text of every operand (literals, signs, brackets, parameters, functions, ATAN with its two arguments in order, EXISTS) reads as its meaning |
| ExpressionText.RefReads | FluidNC/src/Parameters.cpp:433-486 | numbered, named, computed and indirect parameter references read as the parameter they name |
| ExpressionText.RestReads | FluidNC/src/Expression.cpp:699-732 | the operators and operands after the first are delivered exactly, in order, up to the first that fails |
| ExpressionText.OperatorReads | FluidNC/src/Expression.cpp:394-504 | every operator's spelling reads as that operator and no longer one |
| ExpressionText.FunctionReads | FluidNC/src/Expression.cpp:515-609 | every function's name reads as that function |
| ExpressionText.WordReads | FluidNC/src/Parameters.cpp:550-592 | the value of a G-code word: a signed literal, a parameter or an expression |
| ExpressionText.ParamNameAt | FluidNC/src/Parameters.cpp:433-486 | a parameter's name keeps all its characters but white space, letters as capitals |
| ExpressionText.TwoOperators | FluidNC/src/Expression.cpp:311-347 | of two operators the second goes first exactly when it is on a tighter of the five levels, listed from AND/OR/XOR to `**` |
| ExpressionParse.EvaluatesExactlyExpressions | FluidNC/src/Expression.cpp:690-739 | at any position of any line, exactly the texts of expressions that have a value evaluate successfully |
| ExpressionParse.ExprWas | FluidNC/src/Expression.cpp:690-739 | whatever evaluates successfully is the text of an expression, to its end |
| ExpressionParse.OperandWas | FluidNC/src/Parameters.cpp:550-592 | whatever reads as an operand is the text of one |
| ExpressionParse.RefWas | FluidNC/src/Parameters.cpp:433-486 | whatever reads as a parameter reference is the text of one |
| ExpressionParse.LiteralWas | FluidNC/src/NutsBolts.cpp:45-98 | whatever reads as a literal is a sign, digits and at most one point |
| NgcReader.ShiftPending | FluidNC/src/Expression.cpp:715-716 | with a pending pair that binds tighter, the frames stay rising and no more than five |
| NgcReader.ReducePending | FluidNC/src/Expression.cpp:718-732 | one step of the reduction loop on the arrays |
| NgcReader.ReadInto | FluidNC/src/Expression.cpp:709-713 | reads an operand and operator into a slot, or gives the first reading error |
| NgcReader.ReduceInPlace | FluidNC/src/Expression.cpp:718-732 | the reduction loop keeps what the arrays amount to, never executes a bracket and stays in the arrays |
| NgcReader.EvaluateInPlace | FluidNC/src/Expression.cpp:691-738 | the array loop returns exactly the value and end, or the first error, of the token stream |
| NgcReader.ExpressionInPlace | FluidNC/src/Expression.cpp:690-739 | expression() as a whole |
| FloatLiteral.UintToFloat | FluidNC/src/NutsBolts.cpp:18-36 | the scaling loops multiply by the power of ten |
| FloatLiteral.ReadFloatInPlace | FluidNC/src/NutsBolts.cpp:45-98 | the digit loop's sign, digits, point and end |
| FloatLiteral.LiteralValue | FluidNC/src/NutsBolts.cpp:45-98 | a literal is worth its first eight digits at the scale of its point, with an 8-bit exponent |
| FloatLiteral.ExponentWraps | FluidNC/src/NutsBolts.cpp:59-82 | the exponent is the true one exactly when at most 135 digits precede the point |
| FloatLiteral.LiteralIsExact | FluidNC/src/NutsBolts.cpp:45-98 | a literal is read as the decimal number it spells exactly when the digits after the eighth are zero and, with more than 135 digits before the point, all the others are too |
| Arc.RadiusArcAccepts | FluidNC/src/GCode.cpp:1341-1402 | an arc is an invalid target exactly when its ends agree on all axes, a radius error exactly when they are further apart than a diameter, and reaches a division by zero exactly when they agree in the plane and differ on another axis; every other arc gets a centre |
| Arc.RadiusArcHasCentre | FluidNC/src/GCode.cpp:1397-1432 | the centre is at distance abs(R) from both ends, left of travel exactly when counter-clockwise xor R < 0 |
| ArcTrace.TravelFollowsDirection | FluidNC/src/MotionControl.cpp:154-173 | the corrected angle has the programmed direction and number of turns and leads to the same point |
| ArcTrace.ApproximationNorm | FluidNC/src/MotionControl.cpp:220-223 | the approximate rotation scales squared lengths by 1 - t⁴/12 + t⁶/36 |
| ArcTrace.RotationScales | FluidNC/src/MotionControl.cpp:232-234 | a rotation matrix scales squared lengths by c² + s² |
| ArcTrace.RadiusBound | FluidNC/src/MotionControl.cpp:229-244 | up to twelve approximate rotations scale by between 1 - t⁴ and 1 when t² ≤ 3 |
| ArcTrace.CorrectedRotation | FluidNC/src/MotionControl.cpp:237-243 | the correction restores the exact radius at the exact angle |
| ArcTrace.NextPoint | FluidNC/src/MotionControl.cpp:245-251 | each point advances the linear and rotary axes by one even step |
| ArcTrace.TraceArc | FluidNC/src/MotionControl.cpp:178-265 | without an abort exactly the given number of lines, evenly spaced, the last ending at the target; each point's exact squared radius; each line's feed and start |
| ArcTrace.TurnDirection | FluidNC/src/MotionControl.cpp:220-234 | each approximate step turns the radius vector by an angle whose sine and cosine are t - t³/6 and 1 - t²/2 (times its length), so in the direction of travel for 0 < t² < 6 |
| ArcAccuracy.PointsStayNearExact | FluidNC/src/MotionControl.cpp:226-247 | every intermediate point is within k mod 13 errors of one turn of the exact k-th point, where t² ≤ 3 |
| ArcAccuracy.SeriesError | FluidNC/src/MotionControl.cpp:220-223 | with the usual remainders of sine and cosine, one turn errs by at most t⁴/24 + |t|⁵/120 of the radius |
| ArcTrace.McArc | FluidNC/src/MotionControl.cpp:125-265 | the same with the travel and the number of lines computed from the ends, the radius and the tolerance, the number cut to 16 bits; and no line when the kinematics refuse the arc |
| ArcAccuracy.TravelTurnsStartOntoTarget | FluidNC/src/MotionControl.cpp:141-153 | the angle whose arctangent is taken turns the start's radius vector into the direction of the target's |
| ArcAccuracy.LinesFitTolerance | FluidNC/src/MotionControl.cpp:178-181 | the number of lines is the number of whole chords, of a sagitta equal to the tolerance, that the arc's length holds |
| ArcAccuracy.PointsAreEven | FluidNC/src/MotionControl.cpp:184-191 | on every axis outside the plane, the k-th of n points divides the way from start to target as k to n - k |
| ArcTrace.PointStaysNearCircle | FluidNC/src/MotionControl.cpp:229-247 | every intermediate point's squared distance from the centre is in [R²(1 - t⁴), R²] when t² ≤ 3 |
| ArcTrace.SmallToleranceBoundsAngle | FluidNC/src/MotionControl.cpp:178-181 | a tolerance of at most 3/32 of the radius makes the computed number of lines give t² ≤ 3 |
| I2sEngine.Engine.constructor | FluidNC/esp32/i2s_engine.c:307-317 | the static initial counters |
| I2sEngine.Engine.InitEngine | FluidNC/esp32/i2s_engine.c:394-418 | the clamped, rounded-up pulse count, the tick divisor as the whole ticks of a frame, the pulse width returned, and a first delay of 100 ticks, at least one sample exactly when the divisor is at most 100 |
| I2sEngine.Engine.SetTimerTicks | FluidNC/esp32/i2s_engine.c:319-323 | the delay count, unchanged by zero ticks |
| I2sEngine.StepIntervalIsRequested | FluidNC/esp32/i2s_engine.c:319-323 | a step's frames last as long as the ticks requested, to within one frame, exactly so when a frame is a whole number of ticks and up to the rounding of the divisor otherwise |
| I2sEngine.Engine.NextStep | FluidNC/esp32/i2s_engine.c:357-367 | after the pulse function, FIFO and counters together are the waveform with one more step; the subtraction does not wrap |
| I2sEngine.Engine.Isr | FluidNC/esp32/i2s_engine.c:339-373 | one interrupt terminates, pushes eight samples and keeps FIFO plus counters equal to the ideal waveform |
| I2sEngine.Engine.Interrupts | FluidNC/esp32/i2s_engine.c:339-373 | after n interrupts the FIFO has received exactly the first 8n samples of the ideal waveform |
| I2sEngine.PrefixOfWave | FluidNC/esp32/i2s_engine.c:339-373 | what has been sent is a prefix of every longer ideal waveform |
| I2sEngine.StepWaveAt | FluidNC/esp32/i2s_engine.c:345-367 | each sample of a step: the pulse word as long as the pulse lasts, then the port word |
| I2sEngine.PulseCounts | FluidNC/esp32/i2s_engine.c:398-405 | at least one frame, and no shorter than the requested or the longest allowed pulse |
| I2sEngine.PulseCountsIsLeast | FluidNC/esp32/i2s_engine.c:398-405 | the least number of frames that covers the pulse, held between one frame and 20 us |
| I2sEngine.DelayCoversPulse | FluidNC/esp32/i2s_engine.c:463-465 | at every rate up to the advertised maximum a step's delay is at least twice its pulse |
| I2sEngine.MaxRateIsHighest | FluidNC/esp32/i2s_engine.c:463-465 | the advertised maximum is the highest rate at which every step has room for its pulse and as much again |
| I2sEngine.RatesPaceTheEngine | FluidNC/esp32/i2s_engine.c:319-323 | steps timed at such rates meet everything the interrupt handler needs, so its waveform theorem applies |
| Json.QuotedRoundTrip | FluidNC/src/JSONEncoder.cpp:67-106 | a quoted string decodes to the string exactly when its only control characters are the five escaped ones; otherwise the text is no JSON |
| Json.EscapesDecode | FluidNC/src/JSONEncoder.cpp:67-106 | the two-character escapes of the decoder, by code point |
| Json.LineText | FluidNC/src/JSONEncoder.cpp:118-161 | a line break is a newline and two spaces a level in a string, and nothing when encapsulated |
| Json.ValRoundTrip | FluidNC/src/JSONEncoder.cpp:30-221 | the text of a value, before any continuation, decodes to the value and leaves the continuation exactly when all its strings and tags are clean; otherwise it is no JSON |
| Json.MembersRoundTrip | FluidNC/src/JSONEncoder.cpp:177-221 | the same for the members of an object |
| Json.ElemsRoundTrip | FluidNC/src/JSONEncoder.cpp:130-196 | the same for the elements of an array |
| JsonEncoder.Encoder.Add | FluidNC/src/JSONEncoder.cpp:30-35 | the spliced text grows by the character whether or not a piece is sent |
| JsonEncoder.Encoder.Flush | FluidNC/src/JSONEncoder.cpp:19-29 | sending a piece does not change the spliced text |
| JsonEncoder.Encoder.Quoted | FluidNC/src/JSONEncoder.cpp:67-106 | appends the quoted, escaped string |
| JsonEncoder.Encoder.Line | FluidNC/src/JSONEncoder.cpp:124-161 | appends a newline and indent in a string, nothing when encapsulated |
| JsonEncoder.Encoder.CommaLine | FluidNC/src/JSONEncoder.cpp:48-54 | a comma and line break unless this is the level's first item |
| JsonEncoder.Encoder.IncLevel | FluidNC/src/JSONEncoder.cpp:112-117 | one level deeper with a fresh counter, clamped at the deepest |
| JsonEncoder.Encoder.BeginMember | FluidNC/src/JSONEncoder.cpp:177-181 | separator, tag and colon |
| JsonEncoder.Encoder.BeginMemberObject | FluidNC/src/JSONEncoder.cpp:200-206 | opens an object member with a fresh counter, one level deeper unless at the deepest |
| JsonEncoder.Encoder.BeginArray | FluidNC/src/JSONEncoder.cpp:184-189 | opens an array member with a fresh counter, one level deeper unless at the deepest |
| JsonEncoder.Encoder.BeginObject | FluidNC/src/JSONEncoder.cpp:210-214 | opens an object element, one level deeper unless at the deepest |
| JsonEncoder.Encoder.EndContainer | FluidNC/src/JSONEncoder.cpp:192-221 | closes at the outer level, whose counter is as it was |
| JsonEncoder.EmitMembers | FluidNC/src/JSONEncoder.cpp:177-233 | driving the calls over members that fit the sixteen levels appends their text and leaves outer levels alone |
| JsonEncoder.EmitElems | FluidNC/src/JSONEncoder.cpp:130-221 | the same over array elements that fit the sixteen levels |
| JsonEncoder.EncodeObject | FluidNC/src/JSONEncoder.cpp:164-174 | begin, members and end over any tree with at most 15 open containers give a text, or pieces that join to one, that decodes to the tree exactly when the tree is clean |
| JsonEncoder.DepthIsNesting | FluidNC/src/JSONEncoder.cpp:112-117 | the depth in those bounds is the largest number of containers open at once |
| JsonEncoder.ObjectDecodes | FluidNC/src/JSONEncoder.cpp:164-221 | the text of an object decodes to it exactly when it is clean, in both modes |
| Dns.ParseInPlace | FluidNC/src/DnsQuery.cpp:40-102 | the offset-and-buffer loop computes the specification `Parse` on every byte string |
| Dns.AppendLabel | FluidNC/src/DnsQuery.cpp:76-81 | a dot unless first, then the label in lower case |
| Dns.QueryParses | FluidNC/src/DnsQuery.cpp:40-102 | a buffer holding a standard query parses to its lower-case dotted name, type, identifier and RD, whatever follows |
| Dns.ValidParseIsQuery | FluidNC/src/DnsQuery.cpp:40-102 | and only such buffers parse |
| Dns.NoQuestion | FluidNC/src/DnsQuery.cpp:40-60 | what does not parse gives a question with nothing in it |
| Dns.QueryRoundTrip | FluidNC/src/DnsQuery.cpp:40-102 | parsing any encoded query gives back its question |
| Dns.DottedIsJoined | FluidNC/src/DnsQuery.cpp:66-88 | the parsed name is the labels joined by single dots, with every capital in lower case |
| Dns.ResponseShape | FluidNC/src/DnsQuery.cpp:119-174 | length, header, echoed question and answer bytes; the response does not parse as a query |
| Dns.HeaderFields | FluidNC/src/DnsQuery.cpp:131-148 | identifier, QR, AA, RD, RCODE and the four counts |
| Dns.ResponseEchoesQuestion | FluidNC/src/DnsQuery.cpp:150-152 | the response decodes at offset 12 to the same name and type |
| Dns.AnswerNamesQuestion | FluidNC/src/DnsQuery.cpp:154-172 | the answer's compression pointer resolves to the question's name; type, class, TTL, length and address |
| HttpRange.ParseNum | FluidNC/src/HttpRange.cpp:14-30 | the end of the digits and the smaller of their decimal value and SIZE_MAX |
| HttpRange.Parse | FluidNC/src/HttpRange.cpp:32-86 | the selection of the header's range in saturated numbers, for every header and size; it is the selection in unbounded numbers exactly when the range is not a reversed one whose ends both saturate |
| HttpRange.WindowIsNamed | FluidNC/src/HttpRange.cpp:45-85 | the selected window is exactly the bytes the range names, nothing is selected exactly when it is no range, and it is unsatisfiable exactly when it names no byte |
| HttpRange.ReadIsInverse | FluidNC/src/HttpRange.cpp:32-76 | every header that spells a suffix, open or closed range reads as it |
| HttpRange.ReadSpells | FluidNC/src/HttpRange.cpp:32-76 | every header that reads as a range spells it |
| HttpRange.CommaIsMalformed | FluidNC/src/HttpRange.cpp:37-39 | a list of ranges could not have parsed anyway |
| HttpRange.SaturationIsHarmless | FluidNC/src/HttpRange.cpp:48-85 | Partial exactly when the unbounded meaning is, with the same window inside the file; the results differ exactly on a reversed range whose ends both saturate |
| FluidPaths.Registry.ConstructPath | FluidNC/src/FluidPath.cpp:14-59 | flag, count and mount after a construction, and what a card that is not configured or does not mount leaves |
| FluidPaths.Registry.CopyPath | FluidNC/src/FluidPath.cpp:61-66 | flag copied, count taken |
| FluidPaths.Registry.MovePath | FluidNC/src/FluidPath.cpp:68-75 | flag moved |
| FluidPaths.Registry.AssignCopy | FluidNC/src/FluidPath.cpp:77-86 | flag copied, count taken unless assigned to itself |
| FluidPaths.Registry.AssignMove | FluidNC/src/FluidPath.cpp:88-93 | flags swapped |
| FluidPaths.Registry.DestroyPath | FluidNC/src/FluidPath.cpp:95-100 | count given up, card unmounted by the last |
| FluidPaths.StepKeepsCount | FluidNC/src/FluidPath.cpp:14-100 | from a right count (live SD paths + leaked references, mounted exactly while positive), every operation leaves a right count exactly when it is not a construction failing through an error_code |
| FluidPaths.FlagsMove | FluidNC/src/FluidPath.cpp:14-100 | which object carries which flag after each operation: a moved-from path has none, assignments copy or swap, and no other object changes |
| FluidPaths.ConstructionOutcome | FluidNC/src/FluidPath.cpp:36-56 | a construction on an unusable card leaves everything as it was, and one on a usable card takes one reference and leaves it mounted |
| FluidPaths.HistoryKeepsCount | FluidNC/src/FluidPath.cpp:14-100 | the count is right throughout a history exactly when no construction in it fails through an error_code |
| FluidPaths.StepKeepsBalance | FluidNC/src/FluidPath.cpp:14-100 | whatever fails: count + lost references = live SD paths + leaked references, and an unreferenced card is not mounted |
| FluidPaths.CardOutlivesItsPaths | FluidNC/src/FluidPath.cpp:14-100 | after every history the count covers the live SD paths exactly when no more references were lost than leaked; with none lost, the card is mounted while an SD path lives and the count is exact exactly when no copy assignment overwrote one |
| FluidPaths.FailedConstructionUnmounts | FluidNC/src/FluidPath.cpp:38-56 | whenever the card is not in use, a failed error_code construction, a good one and the destruction of the failed object unmount the card under the live path |
| FluidPaths.FailedCopyNeverMounts | FluidNC/src/FluidPath.cpp:61-66 | and a copy of the failed object takes a count without mounting, so that the next path finds no card |
| JobStack.Job.Run | FluidNC/src/FileCommands.cpp:254-269 | the running file is saved and closed, then the new one nested, or the old one restored |
| JobStack.Job.SaveTop | FluidNC/src/FileStream.cpp:90-94 | position remembered, file closed |
| JobStack.Job.RestoreTop | FluidNC/src/FileStream.cpp:96-103 | file reopened at the remembered position |
| JobStack.Job.Nest | FluidNC/src/Job.cpp:46-53 | pushes the job; the first job's output channel leads |
| JobStack.Job.PopTop | FluidNC/src/Job.cpp:54-69 | the last pop clears the leader |
| JobStack.Job.Unnest | FluidNC/src/Job.cpp:70-76 | ends the running file and restores the one below |
| JobStack.Job.AbortAll | FluidNC/src/Job.cpp:78-84 | ends all jobs |
| JobStack.HistoryKeepsOrder | FluidNC/src/Job.cpp:34-84 | after every history with reopening succeeding only the running file is open, and no job means no leader |
| JobStack.LeaderIsFirst | FluidNC/src/Job.cpp:46-69 | the leader is the output channel of the job that started the stack, while there are jobs |
| JobStack.WhatRuns | FluidNC/src/Job.cpp:34-84 | what runs, and at which position, after each operation |
| JobStack.FailedReopenStaysClosed | FluidNC/src/FileStream.cpp:96-103 | a file that cannot be reopened is left closed |
| JobStack.AboveKeepsBelow | FluidNC/src/Job.cpp:34-84 | jobs below a running one are untouched by anything it does |
| JobStack.NestedRunRestoresParent | FluidNC/src/FileCommands.cpp:254-269 | a nested run, with any runs inside it, leaves the parent open at its position over the same jobs |
| ChannelInput.Channel.LineComplete | FluidNC/src/Channel.cpp:38-86 | one byte through the line buffer in place |
| ChannelInput.Channel.Push | FluidNC/src/Channel.cpp:205-211 | a pushed byte joins the end of the stash unless it is a realtime command or the stash is full |
| ChannelInput.Channel.PollRealtime | FluidNC/src/Channel.cpp:213-238 | a poll without a line stashes what arrived, in order and as far as there is room, and assembles nothing |
| ChannelInput.AcceptedIsPrefix | FluidNC/src/Channel.cpp:228-233 | the stash keeps exactly the first bytes it has room for, and drops nothing exactly when all fit |
| ChannelInput.Channel.PollLine | FluidNC/src/Channel.cpp:213-250 | a poll for a line feeds the stash, then the device, in arrival order, up to one line; with nothing left, the lines are those of all plain bytes that ever arrived |
| ChannelInput.RowsAssemble | FluidNC/src/Channel.cpp:38-86 | any mixture of CR, LF and CR-LF endings gives one edited line per row, except an empty LF row right after a CR |
| ChannelInput.EndingsDoNotMatter | FluidNC/src/Channel.cpp:38-86 | all LF, all CR and all CR-LF give the same lines: each row with backspaces applied, cut to at most 254 characters |
| ChannelInput.BackspaceErases | FluidNC/src/Channel.cpp:60-84 | a character and its backspace leave no trace exactly when there was room for the character; otherwise the backspace takes the last character kept |
| ChannelInput.TypedIsKept | FluidNC/src/Channel.cpp:60-84 | without backspaces a line keeps its first 254 characters |
| ChannelInput.CutAtNul | FluidNC/src/Channel.cpp:40-58 | a finished line is copied up to its first NUL |
| WorkOffsets.Parser.ExecuteBlock | FluidNC/src/GCode.cpp:1118-1271 | the checks, axis loops and updates of steps 3 and 4 compute the specification `Step`; an error (no axis words, neither P nor L, an L other than 2 and 20, R with L2, no such system) leaves the state unchanged |
| WorkOffsets.Parser.ComputeTarget | FluidNC/src/GCode.cpp:1217-1239 | machine targets from axis words in G90, G91 and G53 |
| WorkOffsets.Parser.ComputeData | FluidNC/src/GCode.cpp:1171-1189 | the stored offsets G10 L2 and L20 compute |
| WorkOffsets.Parser.ComputeOffset | FluidNC/src/GCode.cpp:1197-1209 | the offsets G92 computes |
| WorkOffsets.Parser.ComputeHome | FluidNC/src/GCode.cpp:1243-1260 | the position G28 and G30 end at |
| WorkOffsets.StepKeepsConsistent | FluidNC/src/GCode.cpp:1784-1833 | the selected system's offsets stay equal to the stored ones |
| WorkOffsets.AbsoluteMotionArrives | FluidNC/src/GCode.cpp:1217-1239 | a G90 motion, even one switching systems, ends at the programmed work coordinates under the offsets then in force |
| WorkOffsets.IncrementalMotionMoves | FluidNC/src/GCode.cpp:1217-1239 | a G91 motion moves every named axis by its programmed distance, in machine and, in the same system, work coordinates, and no other |
| WorkOffsets.MachineMotionArrives | FluidNC/src/GCode.cpp:1217-1239 | a G53 motion ends at the programmed machine position whatever the offsets and the distance mode |
| WorkOffsets.MotionKeepsOffsets | FluidNC/src/GCode.cpp:1784-1793 | a motion changes no offsets, and its block leaves the named system in force |
| WorkOffsets.StoringOffsets | FluidNC/src/GCode.cpp:1157-1189 | G10 L2 stores the programmed offsets of the named axes in the system P names and leaves everything else alone |
| WorkOffsets.BlockErrors | FluidNC/src/GCode.cpp:1134-1195 | exactly which blocks fail, and how |
| WorkOffsets.HomingMovesNamedAxes | FluidNC/src/GCode.cpp:1243-1260 | G28 and G30 take home the named axes, or all when none is named |
| WorkOffsets.ImplicitMotion | FluidNC/src/GCode.cpp:1261-1271 | the axis words of G28.1, G30.1 and G92.1 are a motion of their own; G28.1 and G30.1 keep the position before it |
| WorkOffsets.SettingReadsAsProgrammed | FluidNC/src/GCode.cpp:1173-1209 | after G10 L20 on the active system, or G92, the named axes read their programmed values and nothing moved |
| WorkOffsets.SettingAnotherSystem | FluidNC/src/GCode.cpp:1796-1804 | G10 L20 on another system shows only once that system is selected, and then reads as programmed |
| WorkOffsets.DeclaredPointIsHere | FluidNC/src/GCode.cpp:1192-1239 | a G90 motion to the point just declared by G92 does not move |
| WorkOffsets.ResetMovesByOldOffset | FluidNC/src/GCode.cpp:1217-1239 | axis words on a G92.1 block end off their programmed coordinate by the offset it clears, and on it exactly when that was zero |
| WorkOffsets.HomeComesBack | FluidNC/src/GCode.cpp:1243-1260 | after G28.1 or G30.1 and any blocks that do not set it again, G28 or G30 comes back to the same position |

## Left out

- Flow control: BREAK, CONTINUE and RETURN inside structured programs (they are in the dispatcher, its invariant and the laws of single o-words), entries left by a nested job's file, and how labels and command names are read.
- FlowMeaning.FileRunsProgram: a run stops at the first o-word error; the file job in fact goes on after an "unsupported command" error, with an empty stack.
- FlowRefinement.SimProg: the meaning of labels that repeat an enclosing label is not given, since the code tells nested statements apart only by label.
- Expressions: what the operators compute, parameter tables, and pending assignments (assign_param, perform_assignments).
- Floating point: rounding, overflow, NaN and the accuracy of the trigonometric functions; `float` is `real`.
- ArcTrace.McArc: what a segment count beyond 16 bits is cut to, and when the kinematics refuse an arc, are given.
- Arc: the check of centre-format arcs against their radius tolerance.
- I2sEngine.Engine.Isr: port data changes only inside the pulse function; the FIFO is an unbounded sequence.
- JsonEncoder.EncodeObject: more than 15 open containers (each call clamps the level as the code does, but the text of deeper trees is not followed), arrays directly inside arrays (no call opens one), unencapsulated channel output, `verbatim` and the WebUI helpers.
- JsonEncoder.EmitMembers: the same bound on open containers.
- JsonEncoder.EmitElems: the same bound on open containers.
- Json: \u escapes, numbers and literals in the decoder, which the encoder never writes.
- Dns: the policy choosing an action (a table lookup and two tests) and everything about sockets.
- HttpRange.Parse: a null header, which is treated like one without the prefix.
- FluidPaths: the text of paths and how the mount name is found in them.
- JobStack: a file that cannot be reopened when its nested file ends, per-job parameters, locking, and macros as job sources.
- ChannelInput: pausing, flushRx, UTF-8 decoding of realtime commands and automatic reports.
- WorkOffsets: unit conversion, the intermediate point of G28/G30, G80, P words beyond 127, tool length changes, program end, probing, jogging and parameter assignments to offsets.
- The planner, steppers, kinematics, spindles, coolant, LEDs, playlists, file systems, web server and hardware drivers are not part of this model.
